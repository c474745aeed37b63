/**
 * What the strategies of `DataProcessor` (src/tushare_duckdb/processor.py)
 * promise, proved about the functions of module `Processor`: which
 * combinations the grid holds, which requests go out, which stored rows a
 * strategy can remove, and how often the whole-grid batch runs.
 *
 * Every lemma about the database holds for a writer `w` with `Writes(w)`,
 * that is for `store_data` itself.
 */
module ProcessorLaws {
  import opened Common
  import opened Calendar
  import opened Db
  import opened Metadata
  import opened Storage
  import opened Remote
  import opened Fetcher
  import opened Utils
  import opened Processor

  // ---------------------------------------------------------------------------
  // The parameter grid (lines 26-33)
  // ---------------------------------------------------------------------------

  /**
   * A truthy ts_code wins: one combination `{'ts_code': c}` per non-empty code.
   * Otherwise the required parameters' product, and one empty combination
   * when there are none.
   */
  lemma GridPrecedence(tsCodes: seq<string>, req: seq<(string, ParamValue)>)
    ensures (exists c :: c in tsCodes && c != "") ==>
      (forall i :: 0 <= i < |Grid(tsCodes, req)| ==>
         Grid(tsCodes, req)[i].Keys == {"ts_code"} && Grid(tsCodes, req)[i]["ts_code"] in tsCodes
         && Grid(tsCodes, req)[i]["ts_code"] != "")
      && (forall c :: c in tsCodes && c != "" ==> map["ts_code" := c] in Grid(tsCodes, req))
    ensures (forall c :: c in tsCodes ==> c == "") ==>
      Grid(tsCodes, req) == if req == [] then [map[]] else ParamGrid(req)
  {
    var cs := Filter(tsCodes, NonEmpty);
    if exists c :: c in tsCodes && c != "" {
      var c :| c in tsCodes && c != "";
      assert c in cs;
      var g := Grid(tsCodes, req);
      forall c' | c' in tsCodes && c' != "" ensures map["ts_code" := c'] in g {
        assert c' in cs;
        var i :| 0 <= i < |cs| && cs[i] == c';
        assert g[i] == map["ts_code" := c'];
      }
      forall i | 0 <= i < |g| ensures g[i].Keys == {"ts_code"} && g[i]["ts_code"] in tsCodes && g[i]["ts_code"] != "" {
        assert cs[i] in cs;
      }
    } else {
      FilterNone(tsCodes, NonEmpty);
    }
  }

  /** The grid is empty only when no ts_code is given and some required parameter has no value at all. */
  lemma {:induction false} EmptyGridCause(tsCodes: seq<string>, req: seq<(string, ParamValue)>)
    requires Grid(tsCodes, req) == []
    ensures forall c :: c in tsCodes ==> c == ""
    ensures exists i :: 0 <= i < |req| && ValuesOf(req[i].1) == []
  {
    ProductZeroHasEmpty(req);
  }

  lemma {:induction false} ProductZeroHasEmpty(req: seq<(string, ParamValue)>)
    requires Product(req) == 0
    ensures exists i :: 0 <= i < |req| && ValuesOf(req[i].1) == []
  {
    if |ValuesOf(req[0].1)| != 0 {
      ProductZeroHasEmpty(req[1..]);
      var i :| 0 <= i < |req[1..]| && ValuesOf(req[1..][i].1) == [];
      assert req[i + 1] == req[1..][i];
    }
  }

  /** An empty grid never runs the loop; reading `mode` after it raises, and nothing is written. */
  lemma EmptyGridRaises(w: Writer, s: State, server: Server, table: string, e: ApiEntry, keys: seq<string>,
                        dates: seq<string>, dateCol: Option<string>, tsCodes: seq<string>, overwrite: bool,
                        tsCode: Option<string>)
    requires LimitOk(e) && Grid(tsCodes, e.requiredParams) == []
    ensures ProcessDates(w, s, server, table, e, keys, dates, dateCol, tsCodes, overwrite, tsCode) == Done(s, Threw)
  {
    var j := Job(w, server, table, e, keys, dates, dateCol, [], overwrite, tsCode);
    assert GridLoop(j, Sweep(s, false, 0, []), 0) == Sweep(s, false, 0, []);
  }

  // ---------------------------------------------------------------------------
  // Range mode (lines 176-211, 49-57, 68-92)
  // ---------------------------------------------------------------------------

  /** Range mode sends one request whose window is [first date, last date]. */
  lemma RangeRequestWindow(server: Server, table: string, e: ApiEntry, dates: seq<string>, cur: Option<string>,
                           extra: Params)
    requires LimitOk(e) && dates != [] && Mode(e) == "range" && e.requiresDate != Some(false)
    ensures var p := BuildApiParams(table, dates[0], Last(dates), cur, extra, e);
      && FetchRange(server, table, e, dates, cur, extra) == Fetch(server, ApiTable(e, table), p, e)
      && "start_date" in p && p["start_date"] == FormatDate(e.store.apiDateFormat, dates[0])
      && "end_date" in p && p["end_date"] == FormatDate(e.store.apiDateFormat, Last(dates))
  {
    BuildDateKeys(table, dates[0], Last(dates), cur, extra, e);
  }

  /** An overwriting range store keeps every stored row outside [first date, last date] (for the given ts_code). */
  lemma RangeKeepsOutside(w: Writer, s: State, server: Server, table: string, e: ApiEntry, keys: seq<string>,
                          dates: seq<string>, cur: Option<string>, extra: Params, col: string, tsCode: Option<string>,
                          r: Row)
    requires LimitOk(e) && Writes(w) && dates != [] && e.requiresDate != Some(false)
    requires table in s.tables && r in s.tables[table].rows
    requires dates[0] != "" && Last(dates) != "" && !InReplaceScope(r, col, dates[0], Last(dates), tsCode)
    ensures var d := Range(w, s, server, table, e, keys, dates, cur, extra, Some(col), true, tsCode);
      table in d.state.tables && r in d.state.tables[table].rows
  {
    match FetchRange(server, table, e, dates, cur, extra)
    case Raised =>
    case Rows(rows) =>
      if rows != [] {
        StoreReplaceKeeps(s, table, rows, keys, col, dates[0], Last(dates), tsCode, Some(e.store), r);
      }
  }

  /** Without overwrite, range mode appends: every table keeps its stored rows, in place. */
  lemma RangeAppends(w: Writer, s: State, server: Server, table: string, e: ApiEntry, keys: seq<string>,
                     dates: seq<string>, cur: Option<string>, extra: Params, dateCol: Option<string>,
                     tsCode: Option<string>, n: string)
    requires LimitOk(e) && Writes(w) && n in s.tables
    ensures var d := Range(w, s, server, table, e, keys, dates, cur, extra, dateCol, false, tsCode);
      n in d.state.tables && s.tables[n].rows <= d.state.tables[n].rows
  {
    match FetchRange(server, table, e, dates, cur, extra)
    case Raised =>
    case Rows(rows) =>
      if rows != [] {
        var win := Window(dates, e, false);
        StoreInsertNewKeeps(s, table, rows, keys, dateCol, win.0, win.1, tsCode, Some(e.store), n);
      }
  }

  /**
   * Overwriting range mode over several combinations writes nothing inside the
   * loop: it only collects each combination's frame (and raises at once when
   * there are no dates).
   */
  lemma {:induction false} RangeBatchDefers(j: Job, sw: Sweep, i: nat)
    requires LimitOk(j.e) && i <= |j.grid| && Mode(j.e) == "range" && j.overwrite && |j.grid| > 1
    ensures GridLoop(j, sw, i).state == sw.state && GridLoop(j, sw, i).total == sw.total
    ensures sw.frames <= GridLoop(j, sw, i).frames
    ensures j.dates == [] && i < |j.grid| ==> GridLoop(j, sw, i).raised
    decreases |j.grid| - i
  {
    if i < |j.grid| {
      var p := GridStep(j, sw, j.grid[i]);
      GridLoopCons(j, sw, i, p);
      if !p.raised {
        RangeBatchDefers(j, p, i + 1);
      }
    }
  }

  /**
   * Overwriting range mode over several combinations ends in exactly one
   * `replace` of all collected frames, applied to the database as it was
   * before the call, and returns that store's result.
   */
  lemma RangeBatchSingleStore(w: Writer, s: State, server: Server, table: string, e: ApiEntry, keys: seq<string>,
                              dates: seq<string>, dateCol: Option<string>, tsCodes: seq<string>, tsCode: Option<string>)
    requires LimitOk(e) && Mode(e) == "range" && |Grid(tsCodes, e.requiredParams)| > 1
    ensures var sw := GridLoop(Job(w, server, table, e, keys, dates, dateCol, Grid(tsCodes, e.requiredParams), true, tsCode),
                               Sweep(s, false, 0, []), 0);
      var d := ProcessDates(w, s, server, table, e, keys, dates, dateCol, tsCodes, true, tsCode);
      && (sw.raised ==> d == Done(s, Threw))
      && (!sw.raised && sw.frames == [] ==> d == Done(s, Total(0)))
      && (!sw.raised && sw.frames != [] ==>
            dates != []
            && d == Put(w, s, table, Concat(sw.frames), keys, dateCol, "replace", Window(dates, e, true).0,
                        Window(dates, e, true).1, tsCode, e))
  {
    var j := Job(w, server, table, e, keys, dates, dateCol, Grid(tsCodes, e.requiredParams), true, tsCode);
    RangeBatchDefers(j, Sweep(s, false, 0, []), 0);
  }

  // ---------------------------------------------------------------------------
  // Single mode (lines 213-330)
  // ---------------------------------------------------------------------------

  /** Negative store results are never added, so the standard loop's total never decreases. */
  lemma {:induction false} DailyTotalGrows(k: Sink, s: State, dates: seq<string>, rs: seq<Fetched>, total: int)
    requires |rs| == |dates|
    ensures DailyLoop(k, s, dates, rs, total).outcome.Total? ==> DailyLoop(k, s, dates, rs, total).outcome.n >= total
    decreases |dates|
  {
    if dates != [] {
      var p := DayStep(k, s, dates[0], rs[0]);
      DailyLoopCons(k, s, dates, rs, total, p);
      if p.outcome.Total? {
        DailyTotalGrows(k, p.state, dates[1..], rs[1..], if p.outcome.n >= 0 then total + p.outcome.n else total);
      }
    }
  }

  /** Without overwrite, the standard loop only appends: every table keeps its stored rows, in place. */
  lemma {:induction false} DailyAppends(k: Sink, s: State, dates: seq<string>, rs: seq<Fetched>, total: int, n: string)
    requires |rs| == |dates| && Writes(k.w) && !k.overwrite && n in s.tables
    ensures n in DailyLoop(k, s, dates, rs, total).state.tables
    ensures s.tables[n].rows <= DailyLoop(k, s, dates, rs, total).state.tables[n].rows
    decreases |dates|
  {
    if dates != [] {
      var p := DayStep(k, s, dates[0], rs[0]);
      DailyLoopCons(k, s, dates, rs, total, p);
      if rs[0].Rows? && rs[0].rows != [] {
        StoreInsertNewKeeps(s, k.table, rs[0].rows, k.keys, k.dateCol, Some(dates[0]), Some(dates[0]), k.cur,
                            Some(k.e.store), n);
      }
      if p.outcome.Total? {
        DailyAppends(k, p.state, dates[1..], rs[1..], if p.outcome.n >= 0 then total + p.outcome.n else total, n);
      }
    }
  }

  /**
   * With overwrite, each date's replace is scoped to [d, d] and the current
   * ts_code: a stored row outside every such scope survives the whole loop.
   */
  lemma {:induction false} DailyKeepsOtherDates(k: Sink, s: State, dates: seq<string>, rs: seq<Fetched>, total: int,
                                                col: string, r: Row)
    requires |rs| == |dates| && Writes(k.w) && k.overwrite && k.dateCol == Some(col)
    requires k.table in s.tables && r in s.tables[k.table].rows
    requires forall i :: 0 <= i < |dates| ==> dates[i] != "" && !InReplaceScope(r, col, dates[i], dates[i], k.cur)
    ensures k.table in DailyLoop(k, s, dates, rs, total).state.tables
    ensures r in DailyLoop(k, s, dates, rs, total).state.tables[k.table].rows
    decreases |dates|
  {
    if dates != [] {
      var p := DayStep(k, s, dates[0], rs[0]);
      DailyLoopCons(k, s, dates, rs, total, p);
      if rs[0].Rows? && rs[0].rows != [] {
        StoreReplaceKeeps(s, k.table, rs[0].rows, k.keys, col, dates[0], dates[0], k.cur, Some(k.e.store), r);
      }
      if p.outcome.Total? {
        forall i | 0 <= i < |dates[1..]|
          ensures dates[1..][i] != "" && !InReplaceScope(r, col, dates[1..][i], dates[1..][i], k.cur)
        {
          assert dates[1..][i] == dates[i + 1];
        }
        DailyKeepsOtherDates(k, p.state, dates[1..], rs[1..], if p.outcome.n >= 0 then total + p.outcome.n else total,
                             col, r);
      }
    }
  }

  /** `build_api_params` reads the entry's date settings, never its `fixed_params`. */
  lemma BuildIgnoresFixed(table: string, start: string, end: string, cur: Option<string>, extra: Params, e: ApiEntry,
                          fixed: Params)
    ensures BuildApiParams(table, start, end, cur, extra, e)
         == BuildApiParams(table, start, end, cur, extra, e.(fixedParams := fixed))
  {
    var e2 := e.(fixedParams := fixed);
    assert Mode(e) == Mode(e2) && DateKey(e) == DateKey(e2);
  }

  lemma DayRequestIgnoresFixed(server: Server, table: string, e: ApiEntry, cur: Option<string>, extra: Params,
                               d: string, fixed: Params)
    requires LimitOk(e)
    ensures DayRequest(server, table, e, cur, extra, d) == DayRequest(server, table, e.(fixedParams := fixed), cur, extra, d)
  {
    BuildIgnoresFixed(table, d, d, cur, extra, e, fixed);
  }

  lemma {:induction false} GridFramesIgnoresFixed(server: Server, table: string, e: ApiEntry, grid: seq<Params>,
                                                  dates: seq<string>, tsCode: Option<string>, acc: seq<Frame>,
                                                  fixed: Params)
    requires LimitOk(e)
    ensures GridFrames(server, table, e, grid, dates, tsCode, acc)
         == GridFrames(server, table, e.(fixedParams := fixed), grid, dates, tsCode, acc)
    decreases |grid|
  {
    if grid != [] {
      var e2 := e.(fixedParams := fixed);
      var cur := CurrentTsCode(grid[0], tsCode);
      forall i | 0 <= i < |dates|
        ensures DayResponses(server, table, e, dates, cur, grid[0])[i] == DayResponses(server, table, e2, dates, cur, grid[0])[i]
      {
        DayRequestIgnoresFixed(server, table, e, cur, grid[0], dates[i], fixed);
      }
      assert DayResponses(server, table, e, dates, cur, grid[0]) == DayResponses(server, table, e2, dates, cur, grid[0]);
      match Collect(DayResponses(server, table, e, dates, cur, grid[0]), acc)
      case None =>
      case Some(acc2) => GridFramesIgnoresFixed(server, table, e, grid[1..], dates, tsCode, acc2, fixed);
    }
  }

  lemma MultiResponsesIgnoresFixed(server: Server, table: string, e: ApiEntry, grid: seq<Params>, lo: string,
                                   hi: string, tsCode: Option<string>, fixed: Params)
    requires LimitOk(e)
    ensures MultiResponses(server, table, e, grid, lo, hi, tsCode)
         == MultiResponses(server, table, e.(fixedParams := fixed), grid, lo, hi, tsCode)
  {
    var e2 := e.(fixedParams := fixed);
    forall k | 0 <= k < |grid|
      ensures MultiResponses(server, table, e, grid, lo, hi, tsCode)[k] == MultiResponses(server, table, e2, grid, lo, hi, tsCode)[k]
    {
      BuildIgnoresFixed(table, lo, hi, CurrentTsCode(grid[k], tsCode), grid[k], e, fixed);
    }
  }

  /**
   * The whole-grid batch sends each combination's own values only: the
   * entry's `fixed_params` never reach its requests.
   */
  lemma BatchIgnoresFixed(w: Writer, s: State, server: Server, table: string, e: ApiEntry, keys: seq<string>,
                          dates: seq<string>, grid: seq<Params>, tsCode: Option<string>, dateCol: Option<string>,
                          fixed: Params)
    requires LimitOk(e)
    ensures Batch(w, s, server, table, e, keys, dates, grid, tsCode, dateCol)
         == Batch(w, s, server, table, e.(fixedParams := fixed), keys, dates, grid, tsCode, dateCol)
  {
    GridFramesIgnoresFixed(server, table, e, grid, dates, tsCode, [], fixed);
  }

  /** The same holds for the multi-code batch. */
  lemma MultiCodeIgnoresFixed(w: Writer, s: State, server: Server, table: string, e: ApiEntry, keys: seq<string>,
                              dates: seq<string>, grid: seq<Params>, tsCode: Option<string>, dateCol: Option<string>,
                              fixed: Params)
    requires LimitOk(e)
    ensures MultiCode(w, s, server, table, e, keys, dates, grid, tsCode, dateCol)
         == MultiCode(w, s, server, table, e.(fixedParams := fixed), keys, dates, grid, tsCode, dateCol)
  {
    if dates != [] {
      MultiResponsesIgnoresFixed(server, table, e, grid, dates[0], Last(dates), tsCode, fixed);
    }
  }

  /**
   * Single mode, overwriting over several combinations: every combination
   * runs the same whole-grid batch, whatever its own values, so the batch
   * runs once per combination and its count is added each time.
   */
  lemma OverwriteBatchRepeats(j: Job, sw: Sweep, g1: Params, g2: Params)
    requires LimitOk(j.e) && Mode(j.e) != "full_paging" && Mode(j.e) != "range" && j.overwrite && |j.grid| > 1
    ensures GridStep(j, sw, g1) == GridStep(j, sw, g2)
  {
  }

  // ---------------------------------------------------------------------------
  // Full paging (lines 103-174)
  // ---------------------------------------------------------------------------

  /**
   * The pages stored are at offset, offset + limit, offset + 2 limit, ...
   * whatever each page's size, and a loop that did not raise stopped at the
   * offset right after the last page it stored, which does not go on.
   */
  lemma {:induction false} PageOffsets(k: Pager, s: State, offset: nat, total: int, stored: seq<nat>, r: Paged)
    requires k.limit > 0 && r == PageLoop(k, s, offset, total, stored)
    ensures stored <= r.stored
    ensures |r.stored| > |stored| ==> r.stored[|stored|] == offset
    ensures forall i :: |stored| < i < |r.stored| ==> r.stored[i] == r.stored[i - 1] + k.limit
    ensures r.outcome.Total? ==> !PageGoesOn(k, if |r.stored| == |stored| then offset else r.stored[|r.stored| - 1] + k.limit)
    decreases |k.api.data| - offset
  {
    if PageGoesOn(k, offset) {
      var p := PageStore(k, s, offset);
      PageLoopCons(k, s, offset, total, stored, p);
      if p.outcome.Total? {
        PageOffsets(k, p.state, offset + k.limit, total + p.outcome.n, stored + [offset], r);
      }
    }
  }

  /** Every page the loop stored went on: no fault, not empty, the date column, something newer. */
  lemma {:induction false} PagesStoredGoOn(k: Pager, s: State, offset: nat, total: int, stored: seq<nat>, r: Paged)
    requires k.limit > 0 && r == PageLoop(k, s, offset, total, stored)
    ensures stored <= r.stored
    ensures forall i :: |stored| <= i < |r.stored| ==> PageGoesOn(k, r.stored[i])
    decreases |k.api.data| - offset
  {
    if PageGoesOn(k, offset) {
      var p := PageStore(k, s, offset);
      PageLoopCons(k, s, offset, total, stored, p);
      if p.outcome.Total? {
        PagesStoredGoOn(k, p.state, offset + k.limit, total + p.outcome.n, stored + [offset], r);
      }
    }
  }

  lemma {:induction false} PagingAppends(k: Pager, s: State, offset: nat, total: int, stored: seq<nat>, n: string, r: Paged)
    requires k.limit > 0 && Writes(k.w) && n in s.tables
    requires r == PageLoop(k, s, offset, total, stored)
    ensures n in r.state.tables
    ensures s.tables[n].rows <= r.state.tables[n].rows
    ensures s.meta.Some? ==> r.state.meta.Some?
    decreases |k.api.data| - offset
  {
    if PageGoesOn(k, offset) {
      var p := PageStore(k, s, offset);
      PageLoopCons(k, s, offset, total, stored, p);
      PageStoreAppends(k, s, offset, n);
      if p.outcome.Total? {
        PagingAppends(k, p.state, offset + k.limit, total + p.outcome.n, stored + [offset], n, r);
      }
    }
  }

  /** One page's `insert_new` keeps every table's rows and the metadata table. */
  lemma PageStoreAppends(k: Pager, s: State, offset: nat, n: string)
    requires Writes(k.w) && n in s.tables
    ensures n in PageStore(k, s, offset).state.tables
    ensures s.tables[n].rows <= PageStore(k, s, offset).state.tables[n].rows
    ensures s.meta.Some? ==> PageStore(k, s, offset).state.meta.Some?
  {
    var page := ConvertColumn(Slice(k.api, offset, k.limit), k.col);
    StoreInsertNewKeeps(s, k.table, page, k.keys, Some(k.col), None, None, None, Some(k.e.store), n);
    if s.meta.Some? {
      StoreKeepsMeta(s, k.table, page, k.keys, Some(k.col), "insert_new", None, None, None, Some(k.e.store));
    }
  }

  lemma StoreKeepsMeta(s: State, tableName: string, df: Frame, keys: seq<string>, dateColumn: Option<string>,
                       mode: string, start: Option<string>, end: Option<string>, tsCode: Option<string>,
                       entry: Option<Config>)
    requires s.meta.Some?
    ensures Store(s, tableName, df, keys, dateColumn, mode, start, end, tsCode, entry).state.meta.Some?
  {
  }

  /** After full paging that did not raise, the table's metadata row describes the table as it now is. */
  lemma FullPagingRefreshes(w: Writer, s: State, api: Api, table: string, e: ApiEntry, keys: seq<string>)
    requires LimitOk(e) && Writes(w) && s.meta.Some? && table in s.tables
    ensures var p := FullPaging(w, s, api, table, e, keys);
      p.outcome.Total? ==>
        && table in p.state.tables && p.state.meta.Some? && table in p.state.meta.value
        && p.state.meta.value[table] == ComputeCoverage(p.state.tables[table], Some(DateColumn(e)), false)
  {
    var col := DateColumn(e);
    match Parse(LocalMax(s, table, col))
    case None =>
    case Some(local) =>
      var k := Pager(w, api, table, e, keys, col, local, PagingLimit(e));
      PagingAppends(k, s, 0, 0, [], table, PageLoop(k, s, 0, 0, []));
  }
}
