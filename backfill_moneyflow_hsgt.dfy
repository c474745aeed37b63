/**
 * scripts/backfill_moneyflow_hsgt.py: the backfill of the Shanghai/Shenzhen-Hong
 * Kong Stock Connect money-flow table `moneyflow_hsgt`.
 *
 * The trade days of the SSE calendar in the window that have no local row are
 * fetched in batches: a batch starts at the first unprocessed missing day and
 * takes every following missing day up to 30 calendar days later; one API call
 * requests the batch's first to last day, the rows are de-duplicated on
 * `trade_date` and written with `insert_new`.
 *
 * The moneyflow database is a `Database`; the stock database that holds
 * `trade_cal` is read only and is a map of tables. The API is the function
 * `fetch` from a (start, end) request to the rows `fetch_data_for_range`
 * returns, an empty frame standing for an empty answer or an exception.
 */
module BackfillMoneyflowHsgt {
  import opened Common
  import opened Calendar
  import opened Db
  import opened Storage
  import opened Utils

  const TableName: string := "moneyflow_hsgt"
  const BatchSizeDays: int := 30

  /** The first and last day one API call requests. */
  type Range = (string, string)

  /**
   * What the run accumulates: the sum of the non-negative store results, the
   * ranges that came back empty, and every range requested, in order.
   */
  datatype Tally = Tally(stored: int, failed: seq<Range>, calls: seq<Range>)

  datatype Progress = Progress(state: State, tally: Tally)

  datatype Outcome =
    | InitTableTypeError  // `init_table` is called with one argument too many
    | NoCalendar          // the `trade_cal` query raises
    | NothingMissing
    | Planned(first: string, last: string, count: nat)  // the dry-run report
    | Synced(tally: Tally, crashed: bool)                 // crashed: a date did not parse or a store raised

  datatype Run = Run(outcome: Outcome, state: State)

  /** The API, the writer and the table's configuration entry. */
  datatype Env = Env(fetch: (string, string) -> Frame, w: Writer, keys: seq<string>, entry: Config)

  // ---------------------------------------------------------------------------
  // Missing days (lines 93-108)
  // ---------------------------------------------------------------------------

  /** The distinct stored `trade_date` values; none when the table is missing (the query raises and is caught). */
  function LocalDates(tables: map<string, Table>): (ds: set<string>)
    ensures TableName !in tables ==> ds == {}
    ensures TableName in tables ==>
      forall d :: d in ds <==> exists r :: r in tables[TableName].rows && Get(r, "trade_date") == Some(d)
  {
    if TableName !in tables then {}
    else set r | r in tables[TableName].rows && Get(r, "trade_date").Some? :: Get(r, "trade_date").value
  }

  /** The calendar days without a local row, in calendar order. */
  function Missing(cal: seq<string>, local: set<string>): (ms: seq<string>)
    ensures forall d :: d in ms <==> d in cal && d !in local
    ensures SortedStrs(cal) ==> SortedStrs(ms)
  {
    FilterSorted(cal, d => d !in local);
    Filter(cal, d => d !in local)
  }

  // ---------------------------------------------------------------------------
  // Batches (lines 129-147)
  // ---------------------------------------------------------------------------

  /**
   * `strptime(d, '%Y%m%d') + timedelta(days=30)` formatted back: None when `d`
   * is not a date (strptime raises) or the result leaves year 9999.
   */
  function BatchEnd(d: string): (e: Option<string>)
    ensures e.Some? ==> IsDateString(d) && IsDateString(e.value)
  {
    match Parse(d)
    case None => None
    case Some(x) =>
      var y := AddDays(x, BatchSizeDays);
      if InRange(y) then
        ParseFormat(y);
        Some(Format(y))
      else None
  }

  /** The batch end lies strictly after its start, so a batch always holds its first day. */
  lemma BatchEndAfter(d: string)
    requires BatchEnd(d).Some?
    ensures StrLt(d, BatchEnd(d).value)
  {
    var x := Parse(d).value;
    FormatParse(d);
    FormatOrder(x, AddDays(x, BatchSizeDays));
  }

  /** The inner scan from `j`: the first index whose day is past `e`, or the end of the list. */
  function BatchStop(ms: seq<string>, j: nat, e: string): (k: nat)
    requires j <= |ms|
    ensures j <= k <= |ms|
    ensures forall x :: j <= x < k ==> StrLe(ms[x], e)
    ensures k < |ms| ==> !StrLe(ms[k], e)
    decreases |ms| - j
  {
    if j < |ms| && StrLe(ms[j], e) then BatchStop(ms, j + 1, e) else j
  }

  /** The batches of the days from index `i` on; `complete` is false when a batch start does not parse. */
  datatype Plan = Plan(batches: seq<seq<string>>, complete: bool)

  function Batches(ms: seq<string>, i: nat): (p: Plan)
    requires i <= |ms|
    ensures forall k :: 0 <= k < |p.batches| ==> p.batches[k] != []
    decreases |ms| - i
  {
    if i == |ms| then Plan([], true)
    else match BatchEnd(ms[i])
      case None => Plan([], false)
      case Some(e) =>
        var j := BatchStop(ms, i, e);
        if j == i then Batches(ms, i + 1)
        else
          var rest := Batches(ms, j);
          Plan([ms[i..j]] + rest.batches, rest.complete)
  }

  /** The first batch from `i`: it starts at day `i` and runs up to the inner scan's stop. */
  lemma BatchesHead(ms: seq<string>, i: nat)
    requires i < |ms| && BatchEnd(ms[i]).Some?
    ensures var j := BatchStop(ms, i, BatchEnd(ms[i]).value);
      && i < j
      && Batches(ms, i) == Plan([ms[i..j]] + Batches(ms, j).batches, Batches(ms, j).complete)
  {
    BatchEndAfter(ms[i]);
  }

  /**
   * The pieces of `p` are the days from index `i` on, consecutive and in order,
   * up to the end when `p` is complete and otherwise up to a day that does not
   * parse.
   */
  predicate Covers(ms: seq<string>, i: nat, p: Plan)
    requires i <= |ms| && forall k :: 0 <= k < |p.batches| ==> p.batches[k] != []
  {
    var f := Concat(p.batches);
    && i + |f| <= |ms| && f == ms[i..i + |f|]
    && (p.complete <==> i + |f| == |ms|)
    && (!p.complete ==> BatchEnd(ms[i + |f|]).None?)
  }

  /** The batches cut the days into consecutive pieces, each day in exactly one batch. */
  lemma {:induction false} BatchesCover(ms: seq<string>, i: nat)
    requires i <= |ms|
    ensures Covers(ms, i, Batches(ms, i))
    decreases |ms| - i
  {
    if i < |ms| && BatchEnd(ms[i]).Some? {
      var j := BatchStop(ms, i, BatchEnd(ms[i]).value);
      BatchesHead(ms, i);
      BatchesCover(ms, j);
      CoverStep(ms, i, j, Batches(ms, j));
    }
  }

  lemma CoverStep(ms: seq<string>, i: nat, j: nat, rest: Plan)
    requires i < j <= |ms| && forall k :: 0 <= k < |rest.batches| ==> rest.batches[k] != []
    requires Covers(ms, j, rest)
    ensures Covers(ms, i, Plan([ms[i..j]] + rest.batches, rest.complete))
  {
    var f := Concat(rest.batches);
    assert ([ms[i..j]] + rest.batches)[1..] == rest.batches;
    assert Concat([ms[i..j]] + rest.batches) == ms[i..j] + f;
    assert ms[i..j] + ms[j..j + |f|] == ms[i..j + |f|];
  }

  /**
   * Every batch is a window of 30 days: its start parses, all its days are at
   * most its start plus 30 days, and the next batch starts past that bound.
   */
  predicate Windowed(bs: seq<seq<string>>) {
    Starts(bs) && Within(bs) && Separated(bs)
  }

  predicate Starts(bs: seq<seq<string>>) {
    forall k :: 0 <= k < |bs| ==> bs[k] != [] && BatchEnd(bs[k][0]).Some?
  }

  predicate Within(bs: seq<seq<string>>)
    requires Starts(bs)
  {
    forall k, x :: 0 <= k < |bs| && x in bs[k] ==> StrLe(x, BatchEnd(bs[k][0]).value)
  }

  predicate Separated(bs: seq<seq<string>>)
    requires Starts(bs)
  {
    forall k :: 0 <= k < |bs| - 1 ==> !StrLe(bs[k + 1][0], BatchEnd(bs[k][0]).value)
  }

  lemma {:induction false} BatchesWithin(ms: seq<string>, i: nat)
    requires i <= |ms|
    ensures Windowed(Batches(ms, i).batches)
    decreases |ms| - i
  {
    if i < |ms| && BatchEnd(ms[i]).Some? {
      var e := BatchEnd(ms[i]).value;
      var j := BatchStop(ms, i, e);
      BatchesHead(ms, i);
      BatchesWithin(ms, j);
      var rest := Batches(ms, j).batches;
      if rest != [] {
        BatchesNext(ms, j);
      }
      StartsStep(ms, i, j, e, rest);
      WithinStep(ms, i, j, e, rest);
      SeparatedStep(ms, i, j, e, rest);
    }
  }

  lemma StartsStep(ms: seq<string>, i: nat, j: nat, e: string, rest: seq<seq<string>>)
    requires i < j <= |ms| && BatchEnd(ms[i]) == Some(e) && Starts(rest)
    ensures Starts([ms[i..j]] + rest)
  {
    var bs := [ms[i..j]] + rest;
    forall k | 0 <= k < |bs| ensures bs[k] != [] && BatchEnd(bs[k][0]).Some? {
      if k > 0 {
        assert bs[k] == rest[k - 1];
      }
    }
  }

  lemma WithinStep(ms: seq<string>, i: nat, j: nat, e: string, rest: seq<seq<string>>)
    requires i < j <= |ms| && BatchEnd(ms[i]) == Some(e) && j == BatchStop(ms, i, e)
    requires Starts(rest) && Within(rest) && Starts([ms[i..j]] + rest)
    ensures Within([ms[i..j]] + rest)
  {
    var bs := [ms[i..j]] + rest;
    forall k, x | 0 <= k < |bs| && x in bs[k] ensures StrLe(x, BatchEnd(bs[k][0]).value) {
      if k == 0 {
        var y :| 0 <= y < j - i && ms[i..j][y] == x;
        assert ms[i + y] == x;
      } else {
        assert bs[k] == rest[k - 1];
      }
    }
  }

  lemma SeparatedStep(ms: seq<string>, i: nat, j: nat, e: string, rest: seq<seq<string>>)
    requires i < j <= |ms| && BatchEnd(ms[i]) == Some(e) && j == BatchStop(ms, i, e)
    requires Starts(rest) && Separated(rest) && Starts([ms[i..j]] + rest)
    requires rest != [] ==> j < |ms| && rest[0][0] == ms[j]
    ensures Separated([ms[i..j]] + rest)
  {
    var bs := [ms[i..j]] + rest;
    forall k | 0 <= k < |bs| - 1 ensures !StrLe(bs[k + 1][0], BatchEnd(bs[k][0]).value) {
      if k == 0 {
        assert bs[0][0] == ms[i] && bs[1] == rest[0];
      } else {
        assert bs[k] == rest[k - 1] && bs[k + 1] == rest[k];
      }
    }
  }

  /** A non-empty plan from `j` starts with day `j`. */
  lemma BatchesNext(ms: seq<string>, j: nat)
    requires j <= |ms| && Batches(ms, j).batches != []
    ensures j < |ms| && Batches(ms, j).batches[0][0] == ms[j]
  {
    BatchesHead(ms, j);
  }

  // ---------------------------------------------------------------------------
  // Fetch and store (lines 149-173)
  // ---------------------------------------------------------------------------

  /** The range one batch requests: its first and its last day. */
  function Span(b: seq<string>): (r: Range)
    requires b != []
    ensures r.0 in b && r.1 in b
  {
    (b[0], b[|b| - 1])
  }

  function Spans(bs: seq<seq<string>>): (rs: seq<Range>)
    requires forall k :: 0 <= k < |bs| ==> bs[k] != []
    ensures |rs| == |bs| && forall k :: 0 <= k < |bs| ==> rs[k] == Span(bs[k])
  {
    if bs == [] then []
    else
      var rest := Spans(bs[1..]);
      assert forall k :: 1 <= k < |bs| ==> bs[k] == bs[1..][k - 1];
      [Span(bs[0])] + rest
  }

  /**
   * One batch: request its span; an empty answer is a failed range; otherwise
   * the rows de-duplicated on `trade_date` (first kept) are stored with
   * `insert_new`. None when `store_data` raises.
   */
  function Step(p: Progress, batch: seq<string>, env: Env): (r: Option<Progress>)
    requires batch != []
    ensures r.None? ==> env.fetch(Span(batch).0, Span(batch).1) != []
    ensures r.Some? ==> r.value.tally.calls == p.tally.calls + [Span(batch)]
    ensures r.Some? ==> r.value.tally.stored >= p.tally.stored
    ensures r.Some? ==>
      (env.fetch(Span(batch).0, Span(batch).1) == [] <==> r.value.tally.failed == p.tally.failed + [Span(batch)])
    ensures r.Some? && env.fetch(Span(batch).0, Span(batch).1) == [] ==> r.value.state == p.state
  {
    var span := Span(batch);
    var df := env.fetch(span.0, span.1);
    var t := p.tally.(calls := p.tally.calls + [span]);
    if df == [] then Some(Progress(p.state, t.(failed := t.failed + [span])))
    else
      var o := env.w(p.state, TableName, DedupFirst(df, ["trade_date"]), env.keys, Some("trade_date"), "insert_new",
                     None, None, None, Some(env.entry));
      match o.result
      case Raised => None
      case Returned(code) => Some(Progress(o.state, t.(stored := t.stored + Added(code))))
  }

  /** Where the batches leave the run, and whether a store raised on the way. */
  datatype Fed = Fed(progress: Progress, raised: bool)

  function Feed(bs: seq<seq<string>>, p: Progress, env: Env): (r: Fed)
    requires forall k :: 0 <= k < |bs| ==> bs[k] != []
    decreases |bs|
  {
    if bs == [] then Fed(p, false)
    else match Step(p, bs[0], env)
      case None => Fed(p, true)
      case Some(q) => Feed(bs[1..], q, env)
  }

  /** Feeding one batch ahead of the rest: its step, then the rest. */
  lemma FeedCons(b: seq<string>, rest: seq<seq<string>>, p: Progress, env: Env)
    requires b != [] && forall k :: 0 <= k < |rest| ==> rest[k] != []
    ensures var bs := [b] + rest;
      && (forall k :: 0 <= k < |bs| ==> bs[k] != [])
      && Feed(bs, p, env) == match Step(p, b, env) case None => Fed(p, true) case Some(q) => Feed(rest, q, env)
  {
    assert ([b] + rest)[1..] == rest;
  }

  /**
   * The run requests the spans of the batches in order (every one of them
   * unless a store raised), the stored total never decreases, and a range is
   * reported failed only when the API answered it with nothing.
   */
  predicate Accounted(t: Tally, bs: seq<seq<string>>, fed: Fed, env: Env)
    requires forall k :: 0 <= k < |bs| ==> bs[k] != []
  {
    fed.progress.tally.stored >= t.stored && CallsMade(t, bs, fed) && FailuresEmpty(t, bs, fed, env)
  }

  /** The calls made are the spans of the first batches, all of them unless a store raised. */
  predicate CallsMade(t: Tally, bs: seq<seq<string>>, fed: Fed)
    requires forall k :: 0 <= k < |bs| ==> bs[k] != []
  {
    var r := fed.progress.tally;
    && |t.calls| <= |r.calls| <= |t.calls| + |bs|
    && r.calls == t.calls + Spans(bs)[..|r.calls| - |t.calls|]
    && (!fed.raised ==> r.calls == t.calls + Spans(bs))
  }

  /** Every new failed range is a batch span the API answered with nothing. */
  predicate FailuresEmpty(t: Tally, bs: seq<seq<string>>, fed: Fed, env: Env)
    requires forall k :: 0 <= k < |bs| ==> bs[k] != []
  {
    forall x :: x in fed.progress.tally.failed ==> x in t.failed || (x in Spans(bs) && env.fetch(x.0, x.1) == [])
  }

  lemma {:induction false} FeedCalls(bs: seq<seq<string>>, p: Progress, env: Env)
    requires forall k :: 0 <= k < |bs| ==> bs[k] != []
    ensures Accounted(p.tally, bs, Feed(bs, p, env), env)
    decreases |bs|
  {
    if bs != [] {
      match Step(p, bs[0], env)
      case None =>
      case Some(q) =>
        FeedCalls(bs[1..], q, env);
        var fed := Feed(bs[1..], q, env);
        CallsStep(p.tally, q.tally, bs, fed);
        FailuresStep(p, q, bs, fed, env);
    }
  }

  lemma CallsStep(t: Tally, u: Tally, bs: seq<seq<string>>, fed: Fed)
    requires bs != [] && forall k :: 0 <= k < |bs| ==> bs[k] != []
    requires u.calls == t.calls + [Span(bs[0])] && CallsMade(u, bs[1..], fed)
    ensures CallsMade(t, bs, fed)
  {
    var s, x, tail := Spans(bs), Span(bs[0]), Spans(bs[1..]);
    assert s == [x] + tail;
    var r := fed.progress.tally.calls;
    var n := |r| - |u.calls|;
    assert r == (t.calls + [x]) + tail[..n];
    assert s[..n + 1] == [x] + tail[..n];
    assert r == t.calls + s[..n + 1];
    if !fed.raised {
      assert r == (t.calls + [x]) + tail;
    }
  }

  lemma FailuresStep(p: Progress, q: Progress, bs: seq<seq<string>>, fed: Fed, env: Env)
    requires bs != [] && forall k :: 0 <= k < |bs| ==> bs[k] != []
    requires Step(p, bs[0], env) == Some(q) && FailuresEmpty(q.tally, bs[1..], fed, env)
    ensures FailuresEmpty(p.tally, bs, fed, env)
  {
    var s := Spans(bs);
    assert s == [Span(bs[0])] + Spans(bs[1..]);
    forall x | x in fed.progress.tally.failed
      ensures x in p.tally.failed || (x in s && env.fetch(x.0, x.1) == [])
    {
      if x !in q.tally.failed {
        assert x in Spans(bs[1..]);
      } else if x !in p.tally.failed {
        assert q.tally.failed == p.tally.failed + [Span(bs[0])];
      }
    }
  }

  /** `insert_new` only appends: every table's stored rows survive the run as a prefix. */
  lemma {:induction false} FeedKeeps(bs: seq<seq<string>>, p: Progress, env: Env, n: string)
    requires forall k :: 0 <= k < |bs| ==> bs[k] != []
    requires Writes(env.w) && n in p.state.tables
    ensures var s := Feed(bs, p, env).progress.state;
      n in s.tables && p.state.tables[n].rows <= s.tables[n].rows
    decreases |bs|
  {
    if bs != [] {
      match Step(p, bs[0], env)
      case None =>
      case Some(q) =>
        StepKeeps(p, bs[0], env, n);
        FeedKeeps(bs[1..], q, env, n);
    }
  }

  lemma StepKeeps(p: Progress, b: seq<string>, env: Env, n: string)
    requires b != [] && Writes(env.w) && n in p.state.tables && Step(p, b, env).Some?
    ensures var s := Step(p, b, env).value.state;
      n in s.tables && p.state.tables[n].rows <= s.tables[n].rows
  {
    var span := Span(b);
    var df := env.fetch(span.0, span.1);
    if df != [] {
      WriterKeeps(env.w, p.state, TableName, DedupFirst(df, ["trade_date"]), env.keys, Some("trade_date"), Some(env.entry), n);
    }
  }

  // ---------------------------------------------------------------------------
  // The run (lines 85-173)
  // ---------------------------------------------------------------------------

  /** The run once the table exists (or its creation was attempted), over the window [start, end]. */
  function SyncRun(s: State, cal: map<string, Table>, start: string, end: string, dryRun: bool, env: Env): (r: Run)
    ensures r.outcome.Synced? || r.state == s
    ensures dryRun ==> r.state == s && !r.outcome.Synced?
    ensures r.outcome == NoCalendar <==> "trade_cal" !in cal
  {
    if "trade_cal" !in cal then Run(NoCalendar, s)
    else
      var ms := Missing(TradeDates(cal, start, end, "SSE"), LocalDates(s.tables));
      if ms == [] then Run(NothingMissing, s)
      else if dryRun then Run(Planned(ms[0], ms[|ms| - 1], |ms|), s)
      else
        var plan := Batches(ms, 0);
        var fed := Feed(plan.batches, Progress(s, Tally(0, [], [])), env);
        Run(Synced(fed.progress.tally, fed.raised || !plan.complete), fed.progress.state)
  }

  /** The days the run works on: the window's open SSE days without a local row, ascending. */
  function MissingDays(s: State, cal: map<string, Table>, start: string, end: string): (ms: seq<string>)
    ensures SortedStrs(ms)
    ensures "trade_cal" in cal ==> forall d :: d in ms <==>
      d !in LocalDates(s.tables) && exists r :: r in cal["trade_cal"].rows && OpenDay(r, start, end, "SSE") && Get(r, "cal_date") == Some(d)
  {
    var cal' := TradeDates(cal, start, end, "SSE");
    forall d ensures d in cal' <==> ("trade_cal" in cal &&
        exists r :: r in cal["trade_cal"].rows && OpenDay(r, start, end, "SSE") && Get(r, "cal_date") == Some(d)) {
      TradeDatesExact(cal, start, end, "SSE", d);
    }
    TradeDatesExact(cal, start, end, "SSE", "");
    Missing(cal', LocalDates(s.tables))
  }

  /**
   * A dry run reports the first and last missing day and their number; a full
   * run that did not crash requested exactly one range per batch, each batch a
   * piece of the missing days, and together all of them in order.
   */
  lemma SyncPlan(s: State, cal: map<string, Table>, start: string, end: string, dryRun: bool, env: Env)
    requires "trade_cal" in cal
    ensures var ms := MissingDays(s, cal, start, end); var r := SyncRun(s, cal, start, end, dryRun, env);
      && (r.outcome == NothingMissing <==> ms == [])
      && (r.outcome.Planned? <==> dryRun && ms != [])
      && (r.outcome.Planned? ==> r.outcome == Planned(ms[0], ms[|ms| - 1], |ms|))
      && (r.outcome.Synced? && !r.outcome.crashed ==>
            var bs := Batches(ms, 0).batches;
            Concat(bs) == ms && r.outcome.tally.calls == Spans(bs) && r.outcome.tally.stored >= 0)
  {
    var ms := MissingDays(s, cal, start, end);
    if ms != [] && !dryRun {
      var plan := Batches(ms, 0);
      BatchesCover(ms, 0);
      FeedCalls(plan.batches, Progress(s, Tally(0, [], [])), env);
      assert ms[0..|ms|] == ms;
    }
  }

  /** The stored rows of every existing table survive a run. */
  lemma SyncKeeps(s: State, cal: map<string, Table>, start: string, end: string, dryRun: bool, env: Env, n: string)
    requires Writes(env.w) && n in s.tables
    ensures var t := SyncRun(s, cal, start, end, dryRun, env).state;
      n in t.tables && s.tables[n].rows <= t.tables[n].rows
  {
    if "trade_cal" in cal {
      var ms := MissingDays(s, cal, start, end);
      if ms != [] && !dryRun {
        FeedKeeps(Batches(ms, 0).batches, Progress(s, Tally(0, [], [])), env, n);
      }
    }
  }

  /** The window: the arguments when given, else the configured earliest day and today. */
  function Window(start: Option<string>, end: Option<string>, earliest: string, today: string): Range {
    (if Truthy(start) then start.value else earliest, if Truthy(end) then end.value else today)
  }

  /**
   * `backfill_moneyflow_hsgt` as written: when the table is missing, the call
   * of `init_table` with three arguments raises before anything is read or
   * written, so the table is never created.
   */
  function Backfill(s: State, cal: map<string, Table>, start: Option<string>, end: Option<string>, earliest: string,
                    today: string, dryRun: bool, env: Env): (r: Run)
    ensures TableName !in s.tables ==> r == Run(InitTableTypeError, s)
    ensures TableName in s.tables ==> r.outcome != InitTableTypeError
  {
    if TableName !in s.tables then Run(InitTableTypeError, s)
    else
      var w := Window(start, end, earliest, today);
      SyncRun(s, cal, w.0, w.1, dryRun, env)
  }

  /** The run with `init_table(conn, table_name)`: a missing table is created first. */
  function BackfillCorrected(s: State, schemas: map<string, Schema>, cal: map<string, Table>, start: Option<string>,
                             end: Option<string>, earliest: string, today: string, dryRun: bool, env: Env): (r: Run)
    ensures r.outcome != InitTableTypeError
  {
    var w := Window(start, end, earliest, today);
    SyncRun(State(Initialized(s.tables, TableName, schemas), s.meta), cal, w.0, w.1, dryRun, env)
  }

  /**
   * With the corrected call a known table exists after the run, whether or not
   * it existed before, and every table's rows survive as a prefix.
   */
  lemma CorrectedCreatesTable(s: State, schemas: map<string, Schema>, cal: map<string, Table>, start: Option<string>,
                              end: Option<string>, earliest: string, today: string, dryRun: bool, env: Env, n: string)
    requires Writes(env.w) && TableName in schemas
    ensures var t := BackfillCorrected(s, schemas, cal, start, end, earliest, today, dryRun, env).state;
      && TableName in t.tables
      && (n in s.tables ==> n in t.tables && s.tables[n].rows <= t.tables[n].rows)
  {
    var w := Window(start, end, earliest, today);
    var s' := State(Initialized(s.tables, TableName, schemas), s.meta);
    SyncKeeps(s', cal, w.0, w.1, dryRun, env, TableName);
    if n in s.tables {
      SyncKeeps(s', cal, w.0, w.1, dryRun, env, n);
    }
  }

  // ---------------------------------------------------------------------------
  // The run on the database
  // ---------------------------------------------------------------------------

  /** One batch on the database: the state and tally `Step` gives, and nothing changed when the store raises. */
  method StoreBatch(db: Database, batch: seq<string>, env: Env, t: Tally) returns (ok: bool, t': Tally)
    requires batch != [] && Writes(env.w)
    modifies db
    ensures var r := Step(Progress(State(old(db.tables), old(db.meta)), t), batch, env);
      && (ok <==> r.Some?)
      && (ok ==> r.value == Progress(State(db.tables, db.meta), t'))
      && (!ok ==> t' == t && db.tables == old(db.tables) && db.meta == old(db.meta))
  {
    var span := Span(batch);
    var df := env.fetch(span.0, span.1);
    var t1 := t.(calls := t.calls + [span]);
    if df == [] {
      return true, t1.(failed := t1.failed + [span]);
    }
    var r := StoreData(db, TableName, DedupFirst(df, ["trade_date"]), env.keys, Some("trade_date"), "insert_new",
                       None, None, None, Some(env.entry));
    if r.Raised? {
      return false, t;
    }
    ok, t' := true, t1.(stored := t1.stored + Added(r.code));
  }

  /** The inner scan of lines 139-143: the batch from day `i` up to `e`. */
  method CollectBatch(ms: seq<string>, i: nat, e: string) returns (batch: seq<string>, j: nat)
    requires i <= |ms|
    ensures j == BatchStop(ms, i, e) && batch == ms[i..j]
  {
    batch := [];
    j := i;
    while j < |ms| && StrLe(ms[j], e)
      invariant i <= j <= |ms| && batch == ms[i..j]
      invariant BatchStop(ms, j, e) == BatchStop(ms, i, e)
      decreases |ms| - j
    {
      batch := batch + [ms[j]];
      j := j + 1;
    }
  }

  /** The run after the table check (lines 93-173), proved against `SyncRun`. */
  method SyncTable(db: Database, cal: map<string, Table>, start: string, end: string, dryRun: bool, env: Env)
    returns (o: Outcome)
    requires Writes(env.w)
    modifies db
    ensures Run(o, State(db.tables, db.meta)) == SyncRun(State(old(db.tables), old(db.meta)), cal, start, end, dryRun, env)
  {
    var local := LocalDates(db.tables);
    if "trade_cal" !in cal {
      return NoCalendar;
    }
    var ms := Missing(TradeDates(cal, start, end, "SSE"), local);
    if ms == [] {
      return NothingMissing;
    }
    if dryRun {
      return Planned(ms[0], ms[|ms| - 1], |ms|);
    }
    var tally, crashed := FeedDays(db, ms, env);
    o := Synced(tally, crashed);
  }

  /** The loop over the missing days (lines 129-173), proved against `Batches` and `Feed`. */
  method FeedDays(db: Database, ms: seq<string>, env: Env) returns (tally: Tally, crashed: bool)
    requires Writes(env.w)
    modifies db
    ensures var plan := Batches(ms, 0);
      var fed := Feed(plan.batches, Progress(State(old(db.tables), old(db.meta)), Tally(0, [], [])), env);
      && Progress(State(db.tables, db.meta), tally) == fed.progress
      && crashed == (fed.raised || !plan.complete)
  {
    ghost var plan := Batches(ms, 0);
    ghost var goal := Feed(plan.batches, Progress(State(db.tables, db.meta), Tally(0, [], [])), env);
    tally := Tally(0, [], []);
    var i := 0;
    while i < |ms|
      invariant 0 <= i <= |ms|
      invariant Batches(ms, i).complete == plan.complete
      invariant goal == Feed(Batches(ms, i).batches, Progress(State(db.tables, db.meta), tally), env)
      decreases |ms| - i
    {
      var e := BatchEnd(ms[i]);
      if e.None? {
        return tally, true;
      }
      var batch, j := CollectBatch(ms, i, e.value);
      if batch == [] {
        i := i + 1;
        continue;
      }
      ghost var before := Progress(State(db.tables, db.meta), tally);
      var ok;
      ok, tally := StoreBatch(db, batch, env, tally);
      FeedCons(batch, Batches(ms, j).batches, before, env);
      if !ok {
        return tally, true;
      }
      i := j;
    }
    crashed := false;
  }

  /** `backfill_moneyflow_hsgt` on the database, as written. */
  method BackfillMoneyflowHsgt(db: Database, cal: map<string, Table>, start: Option<string>, end: Option<string>,
                               earliest: string, today: string, dryRun: bool, env: Env) returns (o: Outcome)
    requires Writes(env.w)
    modifies db
    ensures Run(o, State(db.tables, db.meta))
         == Backfill(State(old(db.tables), old(db.meta)), cal, start, end, earliest, today, dryRun, env)
  {
    if TableName !in db.tables {
      return InitTableTypeError;
    }
    var w := Window(start, end, earliest, today);
    o := SyncTable(db, cal, w.0, w.1, dryRun, env);
  }

  /** The same run with the two-argument `init_table` call. */
  method BackfillMoneyflowHsgtCorrected(db: Database, schemas: map<string, Schema>, cal: map<string, Table>,
                                        start: Option<string>, end: Option<string>, earliest: string, today: string,
                                        dryRun: bool, env: Env) returns (o: Outcome)
    requires Writes(env.w)
    modifies db
    ensures Run(o, State(db.tables, db.meta))
         == BackfillCorrected(State(old(db.tables), old(db.meta)), schemas, cal, start, end, earliest, today, dryRun, env)
  {
    if TableName !in db.tables {
      var _ := InitTable(db, TableName, schemas);
    }
    var w := Window(start, end, earliest, today);
    o := SyncTable(db, cal, w.0, w.1, dryRun, env);
  }
}
