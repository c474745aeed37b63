/**
 * Strategy dispatch (src/tushare_duckdb/processor.py, `DataProcessor`).
 *
 * `process_dates` expands the parameter grid (explicit ts_codes, else the
 * cartesian product of `required_params`, else one empty combination) and, for
 * every combination, runs the strategy named by `date_param_mode`:
 * `full_paging` (page until a page brings nothing newer than the stored
 * maximum), `range` (one request for the whole date window) or `single` (one
 * request per date, with two batch variants when overwriting over several
 * combinations). Every write goes through `store_data`.
 *
 * The remote API is a `Server`: the result set selected by an API name and its
 * request parameters, served in offset/limit slices.
 */
module Processor {
  import opened Common
  import opened Calendar
  import opened Db
  import opened Metadata
  import opened Storage
  import opened Remote
  import opened Fetcher
  import opened Utils

  type Server = (string, Params) -> Api

  /** What a processing step does to its caller: a stored-row total, or an exception. */
  datatype Outcome = Total(n: int) | Threw

  /** The database afterwards and the outcome. */
  datatype Done = Done(state: State, outcome: Outcome)

  /** `fetch_data` is called with its default of three attempts per page. */
  const FetchRetries: nat := 3

  /** A configured `limit` is positive (a non-positive one makes `fetch_data` loop forever). */
  predicate LimitOk(e: ApiEntry) {
    e.limit.None? || e.limit.value > 0
  }

  /** `api_config_entry.get('limit', 2000)` as read by `fetch_data`. */
  function FetchLimit(e: ApiEntry): (n: nat)
    requires LimitOk(e)
    ensures n > 0
  {
    if e.limit.Some? then e.limit.value else 2000
  }

  /** `api_config_entry.get('limit', 12000)` as read by `_process_full_paging`. */
  function PagingLimit(e: ApiEntry): (n: nat)
    requires LimitOk(e)
    ensures n > 0
  {
    if e.limit.Some? then e.limit.value else 12000
  }

  /** `api_config_entry.get('api_table', table_name) or table_name` */
  function ApiTable(e: ApiEntry, table: string): string {
    if Truthy(e.apiTable) then e.apiTable.value else table
  }

  /** `grid_params.get('ts_code') or ts_code` */
  function CurrentTsCode(g: Params, tsCode: Option<string>): Option<string> {
    if "ts_code" in g && g["ts_code"] != "" then Some(g["ts_code"]) else tsCode
  }

  /** `{**fixed_params, **grid_params}`: the combination's values win. */
  function Extra(e: ApiEntry, g: Params): Params {
    e.fixedParams + g
  }

  function StoreMode(overwrite: bool): string {
    if overwrite then "replace" else "insert_new"
  }

  function Last(dates: seq<string>): string
    requires dates != []
  {
    dates[|dates| - 1]
  }

  function Code(r: StoreResult): Outcome {
    match r
    case Returned(c) => Total(c)
    case Raised => Threw
  }

  /** One call of `fetch_data`. */
  function Fetch(server: Server, apiTable: string, params: Params, e: ApiEntry): Fetched
    requires LimitOk(e)
  {
    Result(Paging(server(apiTable, params), 0, FetchLimit(e), FetchRetries, Start), e.uniqueKeys)
  }

  /** `store_data` with this entry's storage configuration. */
  function Put(w: Writer, s: State, table: string, df: Frame, keys: seq<string>, dateCol: Option<string>, mode: string,
               start: Option<string>, end: Option<string>, tsCode: Option<string>, e: ApiEntry): Done
  {
    var o := w(s, table, df, keys, dateCol, mode, start, end, tsCode, Some(e.store));
    Done(o.state, Code(o.result))
  }

  /** `self.storage.store_data(...)` through the writer `w`. */
  method PutRows(w: Writer, db: Database, table: string, df: Frame, keys: seq<string>, dateCol: Option<string>, mode: string,
                 start: Option<string>, end: Option<string>, tsCode: Option<string>, e: ApiEntry) returns (o: Outcome)
    requires Writes(w)
    modifies db
    ensures Done(State(db.tables, db.meta), o)
         == Put(w, State(old(db.tables), old(db.meta)), table, df, keys, dateCol, mode, start, end, tsCode, e)
  {
    var r := StoreData(db, table, df, keys, dateCol, mode, start, end, tsCode, Some(e.store));
    o := Code(r);
  }

  // ---------------------------------------------------------------------------
  // Parameter grid (lines 26-33)
  // ---------------------------------------------------------------------------

  predicate NonEmpty(c: string) {
    c != ""
  }

  /** `[{'ts_code': code} for code in ts_codes if code]` */
  function CodeGrid(codes: seq<string>): (g: seq<Params>)
    ensures |g| == |Filter(codes, NonEmpty)|
    ensures forall i :: 0 <= i < |g| ==> g[i] == map["ts_code" := Filter(codes, NonEmpty)[i]]
  {
    var cs := Filter(codes, NonEmpty);
    seq(|cs|, i requires 0 <= i < |cs| => map["ts_code" := cs[i]])
  }

  /** The combinations `process_dates` iterates over. */
  function Grid(tsCodes: seq<string>, req: seq<(string, ParamValue)>): seq<Params> {
    if Filter(tsCodes, NonEmpty) != [] then CodeGrid(tsCodes)
    else if req != [] then ParamGrid(req)
    else [map[]]
  }

  // ---------------------------------------------------------------------------
  // Range mode (lines 176-211)
  // ---------------------------------------------------------------------------

  /** The replace window: the requested one, or the whole table for an overwritten snapshot table. */
  function Window(dates: seq<string>, e: ApiEntry, overwrite: bool): (Option<string>, Option<string>)
    requires dates != []
  {
    if overwrite && e.requiresDate == Some(false) then (None, None) else (Some(dates[0]), Some(Last(dates)))
  }

  /** `_fetch_only_range`: one request for [first date, last date]; an empty list raises IndexError. */
  function FetchRange(server: Server, table: string, e: ApiEntry, dates: seq<string>, cur: Option<string>,
                      extra: Params): Fetched
    requires LimitOk(e)
  {
    if dates == [] then Fetched.Raised
    else Fetch(server, ApiTable(e, table), BuildApiParams(table, dates[0], Last(dates), cur, extra, e), e)
  }

  /** `_process_range` */
  function Range(w: Writer, s: State, server: Server, table: string, e: ApiEntry, keys: seq<string>, dates: seq<string>,
                 cur: Option<string>, extra: Params, dateCol: Option<string>, overwrite: bool,
                 tsCode: Option<string>): Done
    requires LimitOk(e)
  {
    match FetchRange(server, table, e, dates, cur, extra)
    case Raised => Done(s, Threw)
    case Rows(rows) =>
      if rows == [] then Done(s, Total(0))
      else
        var win := Window(dates, e, overwrite);
        Put(w, s, table, rows, keys, dateCol, StoreMode(overwrite), win.0, win.1, tsCode, e)
  }

  // ---------------------------------------------------------------------------
  // Single mode (lines 213-330)
  // ---------------------------------------------------------------------------

  /** The tables kept out of the whole-grid batch (line 219); the multi-code set of line 225 is the same. */
  const BatchSkip: set<string> := {"fut_index_daily", "index_daily", "index_dailybasic", "daily", "daily_basic",
                                   "adj_factor", "opt_daily", "cb_daily", "fund_daily"}
  const MultiCodeTables: set<string> := {"fut_index_daily", "index_daily", "index_dailybasic", "daily", "daily_basic",
                                         "adj_factor", "opt_daily", "cb_daily", "fund_daily"}

  /** The response of each per-date request of the standard loop and of the batch (lines 252-254, 280-281). */
  function DayResponses(server: Server, table: string, e: ApiEntry, dates: seq<string>, cur: Option<string>,
                        extra: Params): (rs: seq<Fetched>)
    requires LimitOk(e)
    ensures |rs| == |dates|
  {
    seq(|dates|, i requires 0 <= i < |dates| => DayRequest(server, table, e, cur, extra, dates[i]))
  }

  /** The request for one date d: the window [d, d]. */
  function DayRequest(server: Server, table: string, e: ApiEntry, cur: Option<string>, extra: Params, d: string): Fetched
    requires LimitOk(e)
  {
    Fetch(server, ApiTable(e, table), BuildApiParams(table, d, d, cur, extra, e), e)
  }

  /** Where and how the standard loop stores each date's rows. */
  datatype Sink = Sink(w: Writer, table: string, e: ApiEntry, keys: seq<string>, cur: Option<string>, dateCol: Option<string>,
                       overwrite: bool)

  /**
   * One date of the standard loop (lines 250-266): a raised request stops the
   * loop, an empty response stores nothing, otherwise the rows are stored with
   * the window [d, d] for the current ts_code.
   */
  function DayStep(k: Sink, s: State, d: string, r: Fetched): Done {
    match r
    case Raised => Done(s, Threw)
    case Rows(rows) =>
      if rows == [] then Done(s, Total(0))
      else Put(k.w, s, k.table, rows, k.keys, k.dateCol, StoreMode(k.overwrite), Some(d), Some(d), k.cur, k.e)
  }

  /**
   * The standard loop of lines 246-268 from the remaining dates on, given the
   * responses to their requests: take each date's step, stop at the first
   * exception, and add only non-negative counts to the total.
   */
  function DailyLoop(k: Sink, s: State, dates: seq<string>, rs: seq<Fetched>, total: int): Done
    requires |rs| == |dates|
    decreases |dates|, 1
  {
    if dates == [] then Done(s, Total(total)) else DailyHead(k, s, dates, rs, total)
  }

  /** The first date's step of `DailyLoop`, then the rest of the loop from its state. */
  function DailyHead(k: Sink, s: State, dates: seq<string>, rs: seq<Fetched>, total: int): Done
    requires |rs| == |dates| > 0
    decreases |dates|, 0
  {
    var p := DayStep(k, s, dates[0], rs[0]);
    match p.outcome
    case Threw => p
    case Total(c) => DailyLoop(k, p.state, dates[1..], rs[1..], if c >= 0 then total + c else total)
  }

  /** `DailyLoop` takes the first date's step `p` and goes on from its state. */
  lemma DailyLoopCons(k: Sink, s: State, dates: seq<string>, rs: seq<Fetched>, total: int, p: Done)
    requires |rs| == |dates| > 0 && p == DayStep(k, s, dates[0], rs[0])
    ensures DailyLoop(k, s, dates, rs, total)
         == if p.outcome.Threw? then p
            else DailyLoop(k, p.state, dates[1..], rs[1..], if p.outcome.n >= 0 then total + p.outcome.n else total)
  {
    assert DailyLoop(k, s, dates, rs, total) == DailyHead(k, s, dates, rs, total);
  }

  /** The non-empty frames among the responses, appended to `acc`; None once a request raised. */
  function Collect(rs: seq<Fetched>, acc: seq<Frame>): Option<seq<Frame>>
    decreases |rs|
  {
    if rs == [] then Some(acc)
    else
      match rs[0]
      case Raised => None
      case Rows(rows) => Collect(rs[1..], if rows == [] then acc else acc + [rows])
  }

  lemma CollectStep(rs: seq<Fetched>, k: nat, acc: seq<Frame>)
    requires k < |rs|
    ensures Collect(rs[k..], acc)
         == if rs[k].Raised? then None
            else Collect(rs[k + 1..], if rs[k].rows == [] then acc else acc + [rs[k].rows])
  {
    assert rs[k..][0] == rs[k] && rs[k..][1..] == rs[k + 1..];
  }

  /** The frames `_batch_fetch_and_store` collects: every combination, every date; `fixed_params` are not sent. */
  function GridFrames(server: Server, table: string, e: ApiEntry, grid: seq<Params>, dates: seq<string>,
                      tsCode: Option<string>, acc: seq<Frame>): Option<seq<Frame>>
    requires LimitOk(e)
    decreases |grid|
  {
    if grid == [] then Some(acc)
    else
      match Collect(DayResponses(server, table, e, dates, CurrentTsCode(grid[0], tsCode), grid[0]), acc)
      case None => None
      case Some(acc2) => GridFrames(server, table, e, grid[1..], dates, tsCode, acc2)
  }

  /** The responses of `_batch_fetch_and_store_multicode`: one [lo, hi] request per combination. */
  function MultiResponses(server: Server, table: string, e: ApiEntry, grid: seq<Params>, lo: string, hi: string,
                          tsCode: Option<string>): (rs: seq<Fetched>)
    requires LimitOk(e)
    ensures |rs| == |grid|
  {
    seq(|grid|, k requires 0 <= k < |grid| =>
      Fetch(server, ApiTable(e, table), BuildApiParams(table, lo, hi, CurrentTsCode(grid[k], tsCode), grid[k], e), e))
  }

  /**
   * `DELETE FROM table WHERE col >= lo AND col <= hi` issued directly on the
   * connection: None when it raises (no such table or column).
   */
  function DeleteRange(s: State, table: string, dateCol: Option<string>, lo: string, hi: string): (r: Option<State>)
    ensures r.Some? ==> r.value.meta == s.meta && r.value.tables.Keys == s.tables.Keys
  {
    var col := if dateCol.Some? then dateCol.value else "None";
    if table !in s.tables || col !in s.tables[table].columns then None
    else
      var t := s.tables[table];
      Some(State(s.tables[table := t.(rows := DeleteScope(t.rows, col, lo, hi, None))], s.meta))
  }

  /** Delete [lo, hi] once, then `insert_new` every collected row. */
  function DeleteThenInsert(w: Writer, s: State, table: string, e: ApiEntry, keys: seq<string>, dateCol: Option<string>,
                            lo: string, hi: string, fs: seq<Frame>): Done
  {
    if fs == [] then Done(s, Total(0))
    else
      match DeleteRange(s, table, dateCol, lo, hi)
      case None => Done(s, Threw)
      case Some(s1) => Put(w, s1, table, Concat(fs), keys, dateCol, "insert_new", None, None, None, e)
  }

  /** `_batch_fetch_and_store` */
  function Batch(w: Writer, s: State, server: Server, table: string, e: ApiEntry, keys: seq<string>, dates: seq<string>,
                 grid: seq<Params>, tsCode: Option<string>, dateCol: Option<string>): Done
    requires LimitOk(e)
  {
    match GridFrames(server, table, e, grid, dates, tsCode, [])
    case None => Done(s, Threw)
    case Some(fs) =>
      if dates == [] then Done(s, Total(0))   // no request was made, so nothing was collected
      else DeleteThenInsert(w, s, table, e, keys, dateCol, dates[0], Last(dates), fs)
  }

  /** `_batch_fetch_and_store_multicode`: the window is read before any request. */
  function MultiCode(w: Writer, s: State, server: Server, table: string, e: ApiEntry, keys: seq<string>, dates: seq<string>,
                     grid: seq<Params>, tsCode: Option<string>, dateCol: Option<string>): Done
    requires LimitOk(e)
  {
    if dates == [] then Done(s, Threw)
    else
      match Collect(MultiResponses(server, table, e, grid, dates[0], Last(dates), tsCode), [])
      case None => Done(s, Threw)
      case Some(fs) => DeleteThenInsert(w, s, table, e, keys, dateCol, dates[0], Last(dates), fs)
  }

  /** `_process_daily`: the two whole-grid batch variants, else the standard loop. */
  function Daily(w: Writer, s: State, server: Server, table: string, e: ApiEntry, keys: seq<string>, dates: seq<string>,
                 cur: Option<string>, extra: Params, dateCol: Option<string>, overwrite: bool,
                 tsCode: Option<string>, grid: seq<Params>): Done
    requires LimitOk(e)
  {
    if |grid| > 1 && overwrite && table !in BatchSkip then Batch(w, s, server, table, e, keys, dates, grid, tsCode, dateCol)
    else if |grid| > 1 && overwrite && table in MultiCodeTables then MultiCode(w, s, server, table, e, keys, dates, grid, tsCode, dateCol)
    else DailyLoop(Sink(w, table, e, keys, cur, dateCol, overwrite), s, dates, DayResponses(server, table, e, dates, cur, extra), 0)
  }

  // ---------------------------------------------------------------------------
  // Full paging (lines 103-174)
  // ---------------------------------------------------------------------------

  /** `SELECT MAX(col) FROM table`, '19000101' when that fails or gives NULL or ''. */
  function LocalMax(s: State, table: string, col: string): (m: string)
    ensures m == "19000101"
      || (table in s.tables && col in s.tables[table].columns
          && m in DateValues(s.tables[table].rows, col)
          && forall v :: v in DateValues(s.tables[table].rows, col) ==> StrLe(v, m))
  {
    if table !in s.tables || col !in s.tables[table].columns then "19000101"
    else
      match MaxOf(DateValues(s.tables[table].rows, col))
      case None => "19000101"
      case Some(v) => if v == "" then "19000101" else v
  }

  /** `pd.to_datetime(..., format='%Y%m%d', errors='coerce')` on one cell (a parsed day is held as its YYYYMMDD text). */
  function AsDatetime(v: Value): (w: Value)
    ensures w.Some? ==> v == w && Parse(w.value).Some?
  {
    if v.Some? && Parse(v.value).Some? then v else None
  }

  function ConvertColumn(page: Frame, col: string): (g: Frame)
    ensures |g| == |page|
  {
    seq(|page|, i requires 0 <= i < |page| => page[i][col := AsDatetime(Get(page[i], col))])
  }

  /** `df_page[col].max() > local_max`: some parsed date of the page is later than the local maximum. */
  predicate HasNew(page: Frame, col: string, local: Ymd) {
    exists r :: r in page && Get(r, col).Some? && Parse(Get(r, col).value).Some? && Before(local, Parse(Get(r, col).value).value)
  }

  /** The pages stored so far (their offsets) and the database. */
  datatype Paged = Paged(state: State, outcome: Outcome, stored: seq<nat>)

  /** What the paging loop of one combination works with: the writer, the result set, where and how to store. */
  datatype Pager = Pager(w: Writer, api: Api, table: string, e: ApiEntry, keys: seq<string>, col: string, local: Ymd,
                         limit: nat)

  /** The page at `offset`, when the loop stores it: no fault, not empty, has the date column and something newer. */
  predicate PageGoesOn(k: Pager, offset: nat)
    ensures PageGoesOn(k, offset) ==> offset < |k.api.data|
  {
    k.api.fault(offset, 0).None?
    && var page := Slice(k.api, offset, k.limit);
       page != [] && k.col in ColumnsOf(page) && HasNew(page, k.col, k.local)
  }

  /** The store of the page at `offset`, its date column parsed. */
  function PageStore(k: Pager, s: State, offset: nat): Done {
    Put(k.w, s, k.table, ConvertColumn(Slice(k.api, offset, k.limit), k.col), k.keys, Some(k.col), "insert_new",
        None, None, None, k.e)
  }

  /** The `while True` loop from `offset` on: one direct query per page, no retry. */
  function PageLoop(k: Pager, s: State, offset: nat, total: int, stored: seq<nat>): Paged
    requires k.limit > 0
    decreases |k.api.data| - offset, 1
  {
    if PageGoesOn(k, offset) then PageHead(k, s, offset, total, stored) else Paged(s, Total(total), stored)
  }

  /** The store of the page at `offset`, then the rest of the loop from its state. */
  function PageHead(k: Pager, s: State, offset: nat, total: int, stored: seq<nat>): Paged
    requires k.limit > 0 && PageGoesOn(k, offset)
    decreases |k.api.data| - offset, 0
  {
    var p := PageStore(k, s, offset);
    match p.outcome
    case Threw => Paged(p.state, Threw, stored + [offset])
    case Total(c) => PageLoop(k, p.state, offset + k.limit, total + c, stored + [offset])
  }

  /** `PageLoop` stores the page at `offset` (giving `p`) and goes on from its state. */
  lemma PageLoopCons(k: Pager, s: State, offset: nat, total: int, stored: seq<nat>, p: Done)
    requires k.limit > 0 && PageGoesOn(k, offset) && p == PageStore(k, s, offset)
    ensures PageLoop(k, s, offset, total, stored)
         == if p.outcome.Threw? then Paged(p.state, Threw, stored + [offset])
            else PageLoop(k, p.state, offset + k.limit, total + p.outcome.n, stored + [offset])
  {
    assert PageLoop(k, s, offset, total, stored) == PageHead(k, s, offset, total, stored);
  }

  /** `update_metadata(conn, table, col)` on a state. */
  function Refresh(s: State, table: string, col: string): (r: State)
    ensures r.tables == s.tables
  {
    if s.meta.Some? && table in s.tables
    then State(s.tables, Some(Upsert(s.meta.value, table, ComputeCoverage(s.tables[table], Some(col), false))))
    else s
  }

  function DateColumn(e: ApiEntry): string {
    if e.dateColumn.Some? then e.dateColumn.value else "trade_date"
  }

  /** `_process_full_paging` against the result set the combination selects. */
  function FullPaging(w: Writer, s: State, api: Api, table: string, e: ApiEntry, keys: seq<string>): Paged
    requires LimitOk(e)
  {
    var col := DateColumn(e);
    match Parse(LocalMax(s, table, col))
    case None => Paged(s, Threw, [])
    case Some(local) =>
      var p := PageLoop(Pager(w, api, table, e, keys, col, local, PagingLimit(e)), s, 0, 0, []);
      if p.outcome.Threw? then p else p.(state := Refresh(p.state, table, col))
  }

  // ---------------------------------------------------------------------------
  // process_dates (lines 15-101)
  // ---------------------------------------------------------------------------

  /** The state of the loop over the grid: database, whether it raised, the total, the deferred range frames. */
  datatype Sweep = Sweep(state: State, raised: bool, total: int, frames: seq<Frame>)

  /** What `process_dates` was called with, shared by every combination. */
  datatype Job = Job(w: Writer, server: Server, table: string, e: ApiEntry, keys: seq<string>, dates: seq<string>,
                     dateCol: Option<string>, grid: seq<Params>, overwrite: bool, tsCode: Option<string>)

  /**
   * The body of the loop (lines 38-65) for the combination `g`: the strategy
   * `date_param_mode` names, its count added to the total, or the range frame
   * deferred when several combinations are overwritten.
   */
  function GridStep(j: Job, sw: Sweep, g: Params): Sweep
    requires LimitOk(j.e)
  {
    var cur := CurrentTsCode(g, j.tsCode);
    if Mode(j.e) == "full_paging" then
      var p := FullPaging(j.w, sw.state, j.server(ApiTable(j.e, j.table), g), j.table, j.e, j.keys);
      match p.outcome
      case Threw => Sweep(p.state, true, sw.total, sw.frames)
      case Total(n) => Sweep(p.state, false, sw.total + n, sw.frames)
    else if Mode(j.e) == "range" && j.overwrite && |j.grid| > 1 then
      match FetchRange(j.server, j.table, j.e, j.dates, cur, Extra(j.e, g))
      case Raised => sw.(raised := true)
      case Rows(rows) => if rows == [] then sw else sw.(frames := sw.frames + [rows])
    else
      var d := if Mode(j.e) == "range"
               then Range(j.w, sw.state, j.server, j.table, j.e, j.keys, j.dates, cur, Extra(j.e, g), j.dateCol,
                          j.overwrite, j.tsCode)
               else Daily(j.w, sw.state, j.server, j.table, j.e, j.keys, j.dates, cur, Extra(j.e, g), j.dateCol,
                          j.overwrite, j.tsCode, j.grid);
      match d.outcome
      case Threw => Sweep(d.state, true, sw.total, sw.frames)
      case Total(n) => Sweep(d.state, false, sw.total + n, sw.frames)
  }

  /** The loop of lines 37-65 from combination `i` on, stopping at the first exception. */
  function GridLoop(j: Job, sw: Sweep, i: nat): Sweep
    requires LimitOk(j.e) && i <= |j.grid|
    decreases |j.grid| - i, 1
  {
    if i == |j.grid| then sw else GridHead(j, sw, i)
  }

  /** Combination `i`'s pass, then the rest of the loop from the sweep it leaves. */
  function GridHead(j: Job, sw: Sweep, i: nat): Sweep
    requires LimitOk(j.e) && i < |j.grid|
    decreases |j.grid| - i, 0
  {
    var p := GridStep(j, sw, j.grid[i]);
    if p.raised then p else GridLoop(j, p, i + 1)
  }

  /** `GridLoop` takes combination `i`'s pass `p` and goes on from it unless it raised. */
  lemma GridLoopCons(j: Job, sw: Sweep, i: nat, p: Sweep)
    requires LimitOk(j.e) && i < |j.grid| && p == GridStep(j, sw, j.grid[i])
    ensures GridLoop(j, sw, i) == if p.raised then p else GridLoop(j, p, i + 1)
  {
    assert GridLoop(j, sw, i) == GridHead(j, sw, i);
  }

  /** `process_dates` */
  function ProcessDates(w: Writer, s: State, server: Server, table: string, e: ApiEntry, keys: seq<string>, dates: seq<string>,
                        dateCol: Option<string>, tsCodes: seq<string>, overwrite: bool, tsCode: Option<string>): Done
    requires LimitOk(e)
  {
    var grid := Grid(tsCodes, e.requiredParams);
    var sw := GridLoop(Job(w, server, table, e, keys, dates, dateCol, grid, overwrite, tsCode), Sweep(s, false, 0, []), 0);
    if sw.raised then Done(sw.state, Threw)
    else if grid == [] then Done(sw.state, Threw)   // `mode` is read after a loop that never ran
    else if Mode(e) == "range" && overwrite && |grid| > 1 && sw.frames != [] && dates != [] then
      var win := Window(dates, e, true);
      Put(w, sw.state, table, Concat(sw.frames), keys, dateCol, "replace", win.0, win.1, tsCode, e)
    else Done(sw.state, Total(sw.total))
  }

  // ---------------------------------------------------------------------------
  // The methods, each proved against its function above
  // ---------------------------------------------------------------------------

  /** `self.fetcher.fetch_data(api_table, params, entry)`; the waits are not kept. */
  method FetchRows(server: Server, apiTable: string, params: Params, e: ApiEntry) returns (f: Fetched)
    requires LimitOk(e)
    ensures f == Fetch(server, apiTable, params, e)
  {
    var sleeps;
    f, sleeps := FetchData(server(apiTable, params), FetchLimit(e), FetchRetries, 0, e.uniqueKeys);
  }

  method FetchOnlyRange(server: Server, table: string, e: ApiEntry, dates: seq<string>, cur: Option<string>,
                        extra: Params) returns (f: Fetched)
    requires LimitOk(e)
    ensures f == FetchRange(server, table, e, dates, cur, extra)
  {
    if dates == [] {
      return Fetched.Raised;
    }
    f := FetchRows(server, ApiTable(e, table), BuildApiParams(table, dates[0], Last(dates), cur, extra, e), e);
  }

  method ProcessRange(w: Writer, db: Database, server: Server, table: string, e: ApiEntry, keys: seq<string>, dates: seq<string>,
                      cur: Option<string>, extra: Params, dateCol: Option<string>, overwrite: bool,
                      tsCode: Option<string>) returns (o: Outcome)
    requires LimitOk(e) && Writes(w)
    modifies db
    ensures Done(State(db.tables, db.meta), o)
         == Range(w, State(old(db.tables), old(db.meta)), server, table, e, keys, dates, cur, extra, dateCol, overwrite, tsCode)
  {
    var f := FetchOnlyRange(server, table, e, dates, cur, extra);
    if f.Raised? {
      return Threw;
    }
    if f.rows == [] {
      return Total(0);
    }
    var win := Window(dates, e, overwrite);
    o := PutRows(w, db, table, f.rows, keys, dateCol, StoreMode(overwrite), win.0, win.1, tsCode, e);
  }

  /** The request for `dates[i]` and, when it returned rows, their store. */
  method DayStepRun(w: Writer, db: Database, server: Server, table: string, e: ApiEntry, keys: seq<string>, d: string,
                   cur: Option<string>, extra: Params, dateCol: Option<string>, overwrite: bool, ghost r: Fetched)
    returns (o: Outcome)
    requires LimitOk(e) && Writes(w) && r == DayRequest(server, table, e, cur, extra, d)
    modifies db
    ensures Done(State(db.tables, db.meta), o)
         == DayStep(Sink(w, table, e, keys, cur, dateCol, overwrite), State(old(db.tables), old(db.meta)), d, r)
  {
    var f := FetchRows(server, ApiTable(e, table), BuildApiParams(table, d, d, cur, extra, e), e);
    if f.Raised? {
      return Threw;
    }
    if f.rows == [] {
      return Total(0);
    }
    o := PutRows(w, db, table, f.rows, keys, dateCol, StoreMode(overwrite), Some(d), Some(d), cur, e);
  }

  /** One pass of the standard loop, stated as the step it takes through `DailyLoop`. */
  method DailyStep(w: Writer, db: Database, server: Server, table: string, e: ApiEntry, keys: seq<string>, dates: seq<string>,
                   cur: Option<string>, extra: Params, dateCol: Option<string>, overwrite: bool, i: nat, total: int,
                   ghost rs: seq<Fetched>)
    returns (stop: bool, o: Outcome, total2: int)
    requires LimitOk(e) && i < |dates| == |rs| && Writes(w)
    requires rs[i] == DayRequest(server, table, e, cur, extra, dates[i])
    modifies db
    ensures DailyLoop(Sink(w, table, e, keys, cur, dateCol, overwrite), State(old(db.tables), old(db.meta)),
                      dates[i..], rs[i..], total)
         == if stop then Done(State(db.tables, db.meta), o)
            else DailyLoop(Sink(w, table, e, keys, cur, dateCol, overwrite), State(db.tables, db.meta),
                           dates[i + 1..], rs[i + 1..], total2)
  {
    ghost var s0 := State(db.tables, db.meta);
    assert dates[i..][0] == dates[i] && dates[i..][1..] == dates[i + 1..];
    assert rs[i..][0] == rs[i] && rs[i..][1..] == rs[i + 1..];
    var c := DayStepRun(w, db, server, table, e, keys, dates[i], cur, extra, dateCol, overwrite, rs[i]);
    DailyLoopCons(Sink(w, table, e, keys, cur, dateCol, overwrite), s0, dates[i..], rs[i..], total,
                  Done(State(db.tables, db.meta), c));
    if c.Threw? {
      return true, Threw, total;
    }
    total2 := if c.n >= 0 then total + c.n else total;
    return false, Total(total2), total2;
  }

  method ProcessDailyLoop(w: Writer, db: Database, server: Server, table: string, e: ApiEntry, keys: seq<string>,
                          dates: seq<string>, cur: Option<string>, extra: Params, dateCol: Option<string>,
                          overwrite: bool) returns (o: Outcome)
    requires LimitOk(e) && Writes(w)
    modifies db
    ensures Done(State(db.tables, db.meta), o)
         == DailyLoop(Sink(w, table, e, keys, cur, dateCol, overwrite), State(old(db.tables), old(db.meta)), dates,
                      DayResponses(server, table, e, dates, cur, extra), 0)
  {
    ghost var k := Sink(w, table, e, keys, cur, dateCol, overwrite);
    ghost var rs := DayResponses(server, table, e, dates, cur, extra);
    ghost var goal := DailyLoop(k, State(db.tables, db.meta), dates, rs, 0);
    var total := 0;
    var i := 0;
    assert dates[0..] == dates && rs[0..] == rs;
    while i < |dates|
      invariant 0 <= i <= |dates|
      invariant goal == DailyLoop(k, State(db.tables, db.meta), dates[i..], rs[i..], total)
    {
      var stop;
      stop, o, total := DailyStep(w, db, server, table, e, keys, dates, cur, extra, dateCol, overwrite, i, total, rs);
      if stop {
        return;
      }
      i := i + 1;
    }
    return Total(total);
  }

  /** The unified DELETE and `insert_new` of both batch variants. */
  method DeleteThenInsertRows(w: Writer, db: Database, table: string, e: ApiEntry, keys: seq<string>, dateCol: Option<string>,
                              lo: string, hi: string, fs: seq<Frame>) returns (o: Outcome)
    requires Writes(w)
    modifies db
    ensures Done(State(db.tables, db.meta), o)
         == DeleteThenInsert(w, State(old(db.tables), old(db.meta)), table, e, keys, dateCol, lo, hi, fs)
  {
    if fs == [] {
      return Total(0);
    }
    var col := if dateCol.Some? then dateCol.value else "None";
    if table !in db.tables || col !in db.tables[table].columns {
      return Threw;
    }
    var t := db.tables[table];
    db.tables := db.tables[table := t.(rows := DeleteScope(t.rows, col, lo, hi, None))];
    o := PutRows(w, db, table, Concat(fs), keys, dateCol, "insert_new", None, None, None, e);
  }

  /** The per-date requests of one combination, appending the non-empty results to `frames`. */
  method CollectDates(server: Server, table: string, e: ApiEntry, dates: seq<string>, cur: Option<string>,
                      extra: Params, frames: seq<Frame>) returns (r: Option<seq<Frame>>)
    requires LimitOk(e)
    ensures r == Collect(DayResponses(server, table, e, dates, cur, extra), frames)
  {
    ghost var rs := DayResponses(server, table, e, dates, cur, extra);
    var acc := frames;
    var j := 0;
    while j < |dates|
      invariant 0 <= j <= |dates|
      invariant Collect(rs, frames) == Collect(rs[j..], acc)
    {
      var d := dates[j];
      assert rs[j..][0] == rs[j] && rs[j..][1..] == rs[j + 1..];
      var f := FetchRows(server, ApiTable(e, table), BuildApiParams(table, d, d, cur, extra, e), e);
      assert f == rs[j];
      if f.Raised? {
        return None;
      }
      if f.rows != [] {
        acc := acc + [f.rows];
      }
      j := j + 1;
    }
    return Some(acc);
  }

  /** The collection loop of `_batch_fetch_and_store`: every combination's per-date requests, in order. */
  method CollectGrid(server: Server, table: string, e: ApiEntry, dates: seq<string>, grid: seq<Params>,
                     tsCode: Option<string>) returns (r: Option<seq<Frame>>)
    requires LimitOk(e)
    ensures r == GridFrames(server, table, e, grid, dates, tsCode, [])
  {
    var frames: seq<Frame> := [];
    var k := 0;
    while k < |grid|
      invariant 0 <= k <= |grid|
      invariant GridFrames(server, table, e, grid, dates, tsCode, []) == GridFrames(server, table, e, grid[k..], dates, tsCode, frames)
    {
      var g := grid[k];
      assert grid[k..][0] == g && grid[k..][1..] == grid[k + 1..];
      r := CollectDates(server, table, e, dates, CurrentTsCode(g, tsCode), g, frames);
      if r.None? {
        return;
      }
      frames := r.value;
      k := k + 1;
    }
    return Some(frames);
  }

  method BatchFetchAndStore(w: Writer, db: Database, server: Server, table: string, e: ApiEntry, keys: seq<string>,
                            dates: seq<string>, grid: seq<Params>, tsCode: Option<string>, dateCol: Option<string>)
    returns (o: Outcome)
    requires LimitOk(e) && Writes(w)
    modifies db
    ensures Done(State(db.tables, db.meta), o)
         == Batch(w, State(old(db.tables), old(db.meta)), server, table, e, keys, dates, grid, tsCode, dateCol)
  {
    var r := CollectGrid(server, table, e, dates, grid, tsCode);
    if r.None? {
      return Threw;
    }
    if dates == [] {
      return Total(0);
    }
    o := DeleteThenInsertRows(w, db, table, e, keys, dateCol, dates[0], Last(dates), r.value);
  }

  /** The collection loop of `_batch_fetch_and_store_multicode`: one [lo, hi] request per combination. */
  method CollectMulti(server: Server, table: string, e: ApiEntry, grid: seq<Params>, lo: string, hi: string,
                      tsCode: Option<string>) returns (r: Option<seq<Frame>>)
    requires LimitOk(e)
    ensures r == Collect(MultiResponses(server, table, e, grid, lo, hi, tsCode), [])
  {
    ghost var rs := MultiResponses(server, table, e, grid, lo, hi, tsCode);
    var frames: seq<Frame> := [];
    var k := 0;
    while k < |grid|
      invariant 0 <= k <= |grid|
      invariant Collect(rs, []) == Collect(rs[k..], frames)
    {
      var g := grid[k];
      var f := FetchRows(server, ApiTable(e, table), BuildApiParams(table, lo, hi, CurrentTsCode(g, tsCode), g, e), e);
      assert f == rs[k];
      CollectStep(rs, k, frames);
      if f.Raised? {
        return None;
      }
      if f.rows != [] {
        frames := frames + [f.rows];
      }
      k := k + 1;
    }
    return Some(frames);
  }

  method BatchFetchAndStoreMultiCode(w: Writer, db: Database, server: Server, table: string, e: ApiEntry, keys: seq<string>,
                                     dates: seq<string>, grid: seq<Params>, tsCode: Option<string>,
                                     dateCol: Option<string>) returns (o: Outcome)
    requires LimitOk(e) && Writes(w)
    modifies db
    ensures Done(State(db.tables, db.meta), o)
         == MultiCode(w, State(old(db.tables), old(db.meta)), server, table, e, keys, dates, grid, tsCode, dateCol)
  {
    if dates == [] {
      return Threw;
    }
    var r := CollectMulti(server, table, e, grid, dates[0], Last(dates), tsCode);
    if r.None? {
      return Threw;
    }
    o := DeleteThenInsertRows(w, db, table, e, keys, dateCol, dates[0], Last(dates), r.value);
  }

  method ProcessDaily(w: Writer, db: Database, server: Server, table: string, e: ApiEntry, keys: seq<string>, dates: seq<string>,
                      cur: Option<string>, extra: Params, dateCol: Option<string>, overwrite: bool,
                      tsCode: Option<string>, grid: seq<Params>) returns (o: Outcome)
    requires LimitOk(e) && Writes(w)
    modifies db
    ensures Done(State(db.tables, db.meta), o)
         == Daily(w, State(old(db.tables), old(db.meta)), server, table, e, keys, dates, cur, extra, dateCol, overwrite, tsCode, grid)
  {
    if |grid| > 1 && overwrite && table !in BatchSkip {
      o := BatchFetchAndStore(w, db, server, table, e, keys, dates, grid, tsCode, dateCol);
    } else if |grid| > 1 && overwrite && table in MultiCodeTables {
      o := BatchFetchAndStoreMultiCode(w, db, server, table, e, keys, dates, grid, tsCode, dateCol);
    } else {
      o := ProcessDailyLoop(w, db, server, table, e, keys, dates, cur, extra, dateCol, overwrite);
    }
  }

  /** One pass of the paging loop, stated as the step it takes through `PageLoop`. */
  method PageRun(k: Pager, db: Database, offset: nat, total: int, ghost stored: seq<nat>, ghost goal: Paged)
    returns (stop: bool, o: Outcome, total2: int, ghost stored2: seq<nat>)
    requires k.limit > 0 && Writes(k.w)
    requires goal == PageLoop(k, State(db.tables, db.meta), offset, total, stored)
    modifies db
    ensures !stop ==> offset < |k.api.data|
    ensures goal == if stop then Paged(State(db.tables, db.meta), o, stored2)
                    else PageLoop(k, State(db.tables, db.meta), offset + k.limit, total2, stored2)
  {
    stored2, total2 := stored, total;
    if k.api.fault(offset, 0).Some? {
      return true, Total(total), total, stored;
    }
    var page := Slice(k.api, offset, k.limit);
    if page == [] || k.col !in ColumnsOf(page) || !HasNew(page, k.col, k.local) {
      return true, Total(total), total, stored;
    }
    ghost var s0 := State(db.tables, db.meta);
    o := PutRows(k.w, db, k.table, ConvertColumn(page, k.col), k.keys, Some(k.col), "insert_new", None, None, None, k.e);
    PageLoopCons(k, s0, offset, total, stored, Done(State(db.tables, db.meta), o));
    stored2 := stored + [offset];
    if o.Threw? {
      return true, o, total, stored2;
    }
    return false, o, total + o.n, stored2;
  }

  /** The paging loop of `_process_full_paging`, from the first page on. */
  method PageAll(k: Pager, db: Database) returns (o: Outcome)
    requires k.limit > 0 && Writes(k.w)
    modifies db
    ensures Done(State(db.tables, db.meta), o)
         == Done(PageLoop(k, State(old(db.tables), old(db.meta)), 0, 0, []).state,
                 PageLoop(k, State(old(db.tables), old(db.meta)), 0, 0, []).outcome)
  {
    ghost var goal := PageLoop(k, State(db.tables, db.meta), 0, 0, []);
    var offset: nat := 0;
    var total := 0;
    ghost var stored: seq<nat> := [];
    while true
      invariant goal == PageLoop(k, State(db.tables, db.meta), offset, total, stored)
      decreases |k.api.data| - offset
    {
      var stop;
      stop, o, total, stored := PageRun(k, db, offset, total, stored, goal);
      if stop {
        return;
      }
      offset := offset + k.limit;
    }
  }

  method ProcessFullPaging(w: Writer, db: Database, api: Api, table: string, e: ApiEntry, keys: seq<string>) returns (o: Outcome)
    requires LimitOk(e) && Writes(w)
    modifies db
    ensures Done(State(db.tables, db.meta), o)
         == Done(FullPaging(w, State(old(db.tables), old(db.meta)), api, table, e, keys).state,
                 FullPaging(w, State(old(db.tables), old(db.meta)), api, table, e, keys).outcome)
  {
    var col := DateColumn(e);
    var local := Parse(LocalMax(State(db.tables, db.meta), table, col));
    if local.None? {
      return Threw;
    }
    o := PageAll(Pager(w, api, table, e, keys, col, local.value, PagingLimit(e)), db);
    if o.Threw? {
      return;
    }
    UpdateMetadata(db, table, Some(col), false);
  }

  /** One pass of the loop of `process_dates`, stated as the step it takes through `GridLoop`. */
  method GridStepRun(j: Job, db: Database, i: nat, total: int, frames: seq<Frame>)
    returns (raised: bool, total2: int, frames2: seq<Frame>)
    requires LimitOk(j.e) && i < |j.grid| && Writes(j.w)
    modifies db
    ensures Sweep(State(db.tables, db.meta), raised, total2, frames2)
         == GridStep(j, Sweep(State(old(db.tables), old(db.meta)), false, total, frames), j.grid[i])
  {
    var g := j.grid[i];
    var cur := CurrentTsCode(g, j.tsCode);
    total2, frames2 := total, frames;
    var n: Outcome;
    if Mode(j.e) == "full_paging" {
      n := ProcessFullPaging(j.w, db, j.server(ApiTable(j.e, j.table), g), j.table, j.e, j.keys);
    } else if Mode(j.e) == "range" && j.overwrite && |j.grid| > 1 {
      var f := FetchOnlyRange(j.server, j.table, j.e, j.dates, cur, Extra(j.e, g));
      if f.Raised? {
        return true, total, frames;
      }
      if f.rows != [] {
        frames2 := frames + [f.rows];
      }
      return false, total, frames2;
    } else if Mode(j.e) == "range" {
      n := ProcessRange(j.w, db, j.server, j.table, j.e, j.keys, j.dates, cur, Extra(j.e, g), j.dateCol, j.overwrite,
                        j.tsCode);
    } else {
      n := ProcessDaily(j.w, db, j.server, j.table, j.e, j.keys, j.dates, cur, Extra(j.e, g), j.dateCol, j.overwrite,
                        j.tsCode, j.grid);
    }
    if n.Threw? {
      return true, total, frames;
    }
    total2 := total + n.n;
    raised := false;
  }

  /** `process_dates` */
  method ProcessDatesRun(w: Writer, db: Database, server: Server, table: string, e: ApiEntry, keys: seq<string>,
                         dates: seq<string>, dateCol: Option<string>, tsCodes: seq<string>, overwrite: bool,
                         tsCode: Option<string>) returns (o: Outcome)
    requires LimitOk(e) && Writes(w)
    modifies db
    ensures Done(State(db.tables, db.meta), o)
         == ProcessDates(w, State(old(db.tables), old(db.meta)), server, table, e, keys, dates, dateCol, tsCodes, overwrite, tsCode)
  {
    var grid := Grid(tsCodes, e.requiredParams);
    var j := Job(w, server, table, e, keys, dates, dateCol, grid, overwrite, tsCode);
    ghost var goal := GridLoop(j, Sweep(State(db.tables, db.meta), false, 0, []), 0);
    var total := 0;
    var frames: seq<Frame> := [];
    var i := 0;
    while i < |grid|
      invariant 0 <= i <= |grid|
      invariant goal == GridLoop(j, Sweep(State(db.tables, db.meta), false, total, frames), i)
    {
      ghost var sw := Sweep(State(db.tables, db.meta), false, total, frames);
      var raised;
      raised, total, frames := GridStepRun(j, db, i, total, frames);
      GridLoopCons(j, sw, i, Sweep(State(db.tables, db.meta), raised, total, frames));
      if raised {
        return Threw;
      }
      i := i + 1;
    }
    if grid == [] {
      return Threw;
    }
    if Mode(e) == "range" && overwrite && |grid| > 1 && frames != [] && dates != [] {
      var win := Window(dates, e, true);
      o := PutRows(w, db, table, Concat(frames), keys, dateCol, "replace", win.0, win.1, tsCode, e);
    } else {
      o := Total(total);
    }
  }
}
