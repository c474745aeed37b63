/**
 * `get_database_status` of src/tushare_duckdb/data_validation.py: one status
 * row per checked table (earliest and latest date, record count and, for
 * date-keyed tables, coverage, missing range and anomalous days) and the
 * per-day count table of a detailed range check.
 *
 * The database is the map `db` from table name to what queries on that table
 * show (`View`); the trade calendar query is the oracle `tradeDays` (`None`
 * when it raises ValueError). Dates are 'YYYYMMDD' strings compared as
 * strings, as the SQL and the Python comparisons do.
 *
 * Inside the table loop the Python locals `earliest_table_date` and
 * `daily_counts` keep the value a previous table gave them; a table that reads
 * one of them before any table has set it raises, and the handler gives that
 * table an error row. The `Scan` state carries both.
 */
module DataValidation {
  import opened Common
  import opened Utils
  import Db

  /** What queries on one table show. */
  datatype View =
    | Absent                                                 // `table_exists` is false
    | Broken                                                 // a query on the table raises
    | Present(columns: set<string>, rows: Frame, countFails: bool)  // `countFails`: the per-day count query raises

  /** The call's arguments that matter here. */
  datatype Settings = Settings(db: string, start: Option<string>, end: Option<string>, detailed: bool,
                               useTradeDates: bool, irregular: bool, quarterly: bool, optStyle: bool)

  /** `f"{first}...{last} ({n}天)"`, `f"{first} (1天)"` or '无缺失'. */
  datatype MissingSummary = NoneMissing | Span(first: string, last: string, days: nat)

  /** '无数据', '无异常日期' or the anomalous dates joined by '; '. */
  datatype Anomalies = NoCounts | NoAnomaly | Dates(dates: seq<string>)

  /** Coverage `covered / expected`, printed as a percentage with one decimal. */
  datatype Coverage = Coverage(covered: nat, expected: nat)

  /** The three quality entries; `None` is 'N/A'. */
  datatype Quality = Quality(coverage: Option<Coverage>, missing: Option<MissingSummary>, anomalies: Option<Anomalies>)

  /** One status row; `None` dates are 'N/A', and `quality` is `None` when the row has no quality keys. */
  datatype Status = Status(db: string, table: string, earliest: Option<string>, latest: Option<string>,
                           records: nat, quality: Option<Quality>)

  /** One row of the per-day table: the date, 'Y'/'N' for a trade day ('Q' rows have `None`), and the per-table counts. */
  datatype DailyRow = DailyRow(date: string, trade: Option<bool>, counts: map<string, int>)

  /** The loop state: the `irregular` flag and the two locals that outlive a table. */
  datatype Scan = Scan(irregular: bool, earliestTable: Option<string>, dayCounts: Option<seq<(string, nat)>>)

  /** What checking one table yields: its row, the day column it writes (if any) and the new loop state. */
  datatype Checked = Checked(status: Status, column: Option<seq<int>>, scan: Scan)

  datatype CountMode = AllRows | DistinctCodes

  /** The result: status rows, per-day rows, and whether the 'opt' alias keys are added to every row. */
  datatype Report = Report(status: seq<Status>, daily: seq<DailyRow>, aliased: bool)

  /** Daily-quote tables, counted by rows per day. */
  const QuoteTables: set<string> := {"yc_cb", "daily", "adj_factor", "daily_basic", "fut_daily", "fut_index_daily",
                                     "index_daily", "opt_daily", "cb_daily", "fund_daily"}

  predicate IsRange(s: Settings) {
    s.start.Some? && s.end.Some?
  }

  function ViewOf(db: map<string, View>, t: string): View {
    if t in db then db[t] else Absent
  }

  // ---------------------------------------------------------------------------
  // The expected days (lines 33-57)
  // ---------------------------------------------------------------------------

  /** The expected days; `None` when the trade calendar raises where nothing handles it. */
  function ValidDays(s: Settings, tradeDays: Option<seq<string>>): Option<seq<string>> {
    if !IsRange(s) then Some([])
    else if s.detailed && !s.irregular then Some(AllDates(s.start.value, s.end.value))
    else if s.useTradeDates then tradeDays
    else if s.quarterly then Some(QuarterlyDates(s.start.value, s.end.value))
    else Some(AllDates(s.start.value, s.end.value))
  }

  /** The per-day table before any table is checked. */
  function InitialDaily(s: Settings, valid: seq<string>, tradeDays: Option<seq<string>>): (d: seq<DailyRow>)
    ensures d != [] <==> s.detailed && IsRange(s) && valid != [] && !s.irregular
    ensures d != [] ==> |d| == |valid| && forall i :: 0 <= i < |d| ==> d[i].date == valid[i] && d[i].counts == map[]
  {
    if !(s.detailed && IsRange(s) && valid != [] && !s.irregular) then []
    else
      var trade: set<string> := if tradeDays.Some? then set d | d in tradeDays.value else {};
      seq(|valid|, i requires 0 <= i < |valid| =>
        DailyRow(valid[i], if s.quarterly then None else Some(valid[i] in trade), map[]))
  }

  // ---------------------------------------------------------------------------
  // The queries on one table (lines 92-104, 116-131)
  // ---------------------------------------------------------------------------

  /** `MIN(date)` read through `str(result[0]) if result[0] else 'N/A'`. */
  function Earliest(rows: Frame, c: string): Option<string> {
    var m := Db.MinOf(Db.DateValues(rows, c));
    if m == Some("") then None else m
  }

  /** `MAX(date)` read the same way. */
  function Latest(rows: Frame, c: string): Option<string> {
    var m := Db.MaxOf(Db.DateValues(rows, c));
    if m == Some("") then None else m
  }

  function CountModeOf(table: string, columns: set<string>): CountMode {
    if table in QuoteTables then AllRows
    else if "ts_code" in columns then DistinctCodes
    else AllRows
  }

  /** The rows dated `d`. */
  function RowsOn(rows: Frame, c: string, d: string): (r: Frame)
    ensures |r| <= |rows|
  {
    Filter(rows, (r: Row) => Get(r, c) == Some(d))
  }

  /** The distinct non-null `ts_code` values of the rows dated `d`. */
  function CodesOn(rows: Frame, c: string, d: string): set<string> {
    set r | r in rows && Get(r, c) == Some(d) && Get(r, "ts_code").Some? :: Get(r, "ts_code").value
  }

  /** `COUNT(*)` or `COUNT(DISTINCT ts_code)` over the rows dated `d`. */
  function DayCount(rows: Frame, c: string, d: string, mode: CountMode): nat {
    if mode == AllRows then |RowsOn(rows, c, d)| else |CodesOn(rows, c, d)|
  }

  /** Sorted input without repeats. */
  function Uniq(s: seq<string>): (r: seq<string>)
    ensures forall x :: x in r <==> x in s
  {
    if |s| <= 1 then s
    else if s[0] == s[1] then Uniq(s[1..])
    else
      assert forall x :: x in s <==> x == s[0] || x in s[1..];
      [s[0]] + Uniq(s[1..])
  }

  /** The dates of the `GROUP BY` over `lo <= date <= hi`, ascending. */
  function GroupDates(rows: Frame, c: string, lo: string, hi: string): (ds: seq<string>)
    ensures forall d :: d in ds <==> (exists r :: r in rows && Get(r, c) == Some(d)) && StrLe(lo, d) && StrLe(d, hi)
  {
    var inWindow := Filter(Db.DateValues(rows, c), v => StrLe(lo, v) && StrLe(v, hi));
    var sorted := Sort(inWindow);
    assert forall x :: x in sorted <==> x in multiset(sorted);
    assert forall x :: x in inWindow <==> x in multiset(inWindow);
    Uniq(sorted)
  }

  /** `daily_counts`: each date of the window with its count. */
  function DayCounts(rows: Frame, c: string, lo: string, hi: string, mode: CountMode): (dc: seq<(string, nat)>)
    ensures |dc| == |GroupDates(rows, c, lo, hi)|
    ensures forall i :: 0 <= i < |dc| ==> dc[i] == (GroupDates(rows, c, lo, hi)[i], DayCount(rows, c, dc[i].0, mode))
  {
    var ds := GroupDates(rows, c, lo, hi);
    seq(|ds|, i requires 0 <= i < |ds| => (ds[i], DayCount(rows, c, ds[i], mode)))
  }

  /** `count_dict`: the dates of `daily_counts` that are non-empty strings, the later entry winning. */
  function Dict(dc: seq<(string, nat)>): (m: map<string, nat>)
    ensures forall d :: d in m <==> d != "" && exists i :: 0 <= i < |dc| && dc[i].0 == d
  {
    if dc == [] then map[]
    else
      var last := dc[|dc| - 1];
      var m := Dict(dc[..|dc| - 1]);
      assert forall i :: 0 <= i < |dc| - 1 ==> dc[..|dc| - 1][i] == dc[i];
      if last.0 == "" then m else m[last.0 := last.1]
  }

  // ---------------------------------------------------------------------------
  // Missing range and anomalous days (lines 136-149)
  // ---------------------------------------------------------------------------

  function Summary(missing: seq<string>): (r: MissingSummary)
    ensures r == NoneMissing <==> missing == []
    ensures r.Span? ==> r.first == missing[0] && r.last == missing[|missing| - 1] && r.days == |missing|
  {
    if missing == [] then NoneMissing else Span(missing[0], missing[|missing| - 1], |missing|)
  }

  function SumReal(xs: seq<nat>): real {
    if xs == [] then 0.0 else xs[0] as real + SumReal(xs[1..])
  }

  function SquaresFrom(xs: seq<nat>, mean: real): real {
    if xs == [] then 0.0 else (xs[0] as real - mean) * (xs[0] as real - mean) + SquaresFrom(xs[1..], mean)
  }

  function Mean(xs: seq<nat>): real
    requires xs != []
  {
    SumReal(xs) / (|xs| as real)
  }

  /** The population variance (`np.std` squared). */
  function Variance(xs: seq<nat>): real
    requires xs != []
  {
    SquaresFrom(xs, Mean(xs)) / (|xs| as real)
  }

  /**
   * `c < max(mean - 2·std, 1)`, with the square root squared away:
   * `c < mean - 2·std` holds iff `mean - c` is positive and its square
   * exceeds `4·variance`. A single count has deviation 0, as the source sets.
   */
  predicate Below(c: nat, counts: seq<nat>)
    requires counts != []
  {
    c < 1 || (c as real < Mean(counts) && (Mean(counts) - c as real) * (Mean(counts) - c as real) > 4.0 * Variance(counts))
  }

  function CountsOf(dc: seq<(string, nat)>): (cs: seq<nat>)
    ensures |cs| == |dc| && forall i :: 0 <= i < |dc| ==> cs[i] == dc[i].1
  {
    seq(|dc|, i requires 0 <= i < |dc| => dc[i].1)
  }

  function BelowDates(dc: seq<(string, nat)>, counts: seq<nat>): (ds: seq<string>)
    requires counts != []
    ensures forall d :: d in ds <==> exists i :: 0 <= i < |dc| && dc[i].0 == d && Below(dc[i].1, counts)
    ensures ds == [] <==> forall i :: 0 <= i < |dc| ==> !Below(dc[i].1, counts)
  {
    if dc == [] then []
    else
      var rest := BelowDates(dc[1..], counts);
      assert forall i :: 0 < i < |dc| ==> dc[i] == dc[1..][i - 1];
      assert forall i :: 0 <= i < |dc| - 1 ==> dc[1..][i] == dc[i + 1];
      if Below(dc[0].1, counts) then [dc[0].0] + rest else rest
  }

  function AnomaliesOf(dc: seq<(string, nat)>): Anomalies {
    if dc == [] then NoCounts
    else
      var ds := BelowDates(dc, CountsOf(dc));
      if ds == [] then NoAnomaly else Dates(ds)
  }

  // ---------------------------------------------------------------------------
  // One table (lines 63-193)
  // ---------------------------------------------------------------------------

  /** The row of a table that is missing, has no columns, or raised: 'N/A' and 0 in every entry. */
  function ErrorRow(s: Settings, table: string): Status {
    Status(s.db, table, None, None, 0, if s.irregular then None else Some(Quality(None, None, None)))
  }

  /** The zero column written for such a table when the per-day table is in use. */
  function Zeros(hasDaily: bool, n: nat): Option<seq<int>> {
    if hasDaily then Some(seq(n, _ => 0)) else None
  }

  /** The expected days on or after the effective start. */
  function EffectiveDays(valid: seq<string>, eff: string): (ds: seq<string>)
    ensures forall d :: d in ds <==> d in valid && StrLe(eff, d)
  {
    Filter(valid, d => StrLe(eff, d))
  }

  function Missing(effDays: seq<string>, existing: set<string>): (m: seq<string>)
    ensures |m| <= |effDays|
    ensures forall d :: d in m <==> d in effDays && d !in existing
  {
    var f := Filter(effDays, d => d !in existing);
    var m := Sort(f);
    assert forall x :: x in m <==> x in multiset(m);
    assert |m| == |multiset(m)| == |multiset(f)| == |f|;
    m
  }

  /** The expected days that have rows plus the missing ones are all the expected days. */
  lemma {:induction false} CoveredAndMissing(effDays: seq<string>, existing: set<string>)
    ensures |Filter(effDays, d => d in existing)| + |Missing(effDays, existing)| == |effDays|
  {
    var f := Filter(effDays, d => d !in existing);
    assert |Sort(f)| == |multiset(Sort(f))| == |multiset(f)| == |f|;
    SplitCount(effDays, existing);
  }

  lemma {:induction false} SplitCount(s: seq<string>, existing: set<string>)
    ensures |Filter(s, d => d in existing)| + |Filter(s, d => d !in existing)| == |s|
  {
    if s != [] {
      SplitCount(s[1..], existing);
    }
  }

  /**
   * The quality entries of a measured table: coverage counts the expected
   * days that have rows out of all expected days, the missing range
   * summarises the rest, and anomalies are judged on the per-day counts.
   */
  function Assess(effDays: seq<string>, existing: set<string>, dc: seq<(string, nat)>): (q: Quality)
    ensures q.coverage == Some(Coverage(|Filter(effDays, d => d in existing)|, |effDays|))
    ensures q.missing.Some? && (q.missing.value == NoneMissing <==> forall d :: d in effDays ==> d in existing)
    ensures q.anomalies == Some(AnomaliesOf(dc))
  {
    var missing := Missing(effDays, existing);
    CoveredAndMissing(effDays, existing);
    assert missing != [] ==> missing[0] in missing;
    Quality(Some(Coverage(|effDays| - |missing|, |effDays|)), Some(Summary(missing)), Some(AnomaliesOf(dc)))
  }

  function Lookup(m: map<string, nat>, d: string): int {
    if d in m then m[d] else 0
  }

  /** The per-day column of a measured table: its count on each day from the effective start, 0 before it. */
  function DayColumn(hasDaily: bool, valid: seq<string>, eff: string, dict: map<string, nat>): Option<seq<int>> {
    if hasDaily
    then Some(seq(|valid|, i requires 0 <= i < |valid| => if StrLe(eff, valid[i]) then Lookup(dict, valid[i]) else 0))
    else None
  }

  /** `earliest_table_date` of a date-keyed table. */
  function TableEarliest(rows: Frame, dateCol: string): string {
    if Earliest(rows, dateCol).Some? then Earliest(rows, dateCol).value else "19900101"
  }

  /** The later of the requested start and the table's earliest stored date ('19900101' when it has none). */
  function EffectiveStart(start: string, rows: Frame, dateCol: string): (eff: string)
    ensures StrLe(start, eff) && StrLe(TableEarliest(rows, dateCol), eff)
    ensures eff == start || eff == TableEarliest(rows, dateCol)
  {
    MaxStr(start, TableEarliest(rows, dateCol))
  }

  function CheckTable(s: Settings, valid: seq<string>, hasDaily: bool, scan: Scan,
                      table: string, dateCol: string, view: View): (c: Checked)
    ensures c.status.table == table
  {
    if view.Present? && view.columns != {} then
      CheckPresent(s, valid, hasDaily, scan, table, dateCol, view.columns, view.rows, view.countFails)
    else Checked(ErrorRow(s, table), Zeros(hasDaily, |valid|), scan)
  }

  /** A table that exists and has columns. */
  function CheckPresent(s: Settings, valid: seq<string>, hasDaily: bool, scan: Scan,
                        table: string, dateCol: string, cols: set<string>, rows: Frame, countFails: bool): Checked
  {
    if dateCol == "" || scan.irregular || Lower(dateCol) !in cols then
      var irregular := Scan(true, scan.earliestTable, scan.dayCounts);
      if IsRange(s) && scan.earliestTable.None? then Checked(ErrorRow(s, table), Zeros(hasDaily, |valid|), irregular)
      else Checked(Status(s.db, table, None, None, |rows|, None), None, irregular)
    else if IsRange(s) && EffectiveDays(valid, EffectiveStart(s.start.value, rows, dateCol)) != [] then
      Measure(s, valid, hasDaily, scan, table, dateCol, cols, rows, countFails)
    else
      Checked(Status(s.db, table, Earliest(rows, dateCol), Latest(rows, dateCol), |rows|, Some(Quality(None, None, None))),
              None, Scan(false, Some(TableEarliest(rows, dateCol)), scan.dayCounts))
  }

  /** A date-keyed table checked over a range with expected days left: the per-day query and what follows from it. */
  function Measure(s: Settings, valid: seq<string>, hasDaily: bool, scan: Scan,
                   table: string, dateCol: string, cols: set<string>, rows: Frame, countFails: bool): Checked
    requires IsRange(s)
  {
    var eff := EffectiveStart(s.start.value, rows, dateCol);
    var effDays := EffectiveDays(valid, eff);
    var counted := DayCounts(rows, dateCol, eff, s.end.value, CountModeOf(table, cols));
    var et := Some(TableEarliest(rows, dateCol));
    if countFails && scan.dayCounts.None? then
      Checked(ErrorRow(s, table), Zeros(hasDaily, |valid|), Scan(false, et, None))
    else
      var dc := if countFails then scan.dayCounts.value else counted;
      var dict := if countFails then map[] else Dict(counted);
      var q := Assess(effDays, dict.Keys, dc);
      Checked(Status(s.db, table, Earliest(rows, dateCol), Latest(rows, dateCol), |rows|, Some(q)),
              DayColumn(hasDaily, valid, eff, dict), Scan(false, et, Some(dc)))
  }

  // ---------------------------------------------------------------------------
  // The table loop and the call (lines 19-31, 63-210)
  // ---------------------------------------------------------------------------

  /** `daily_data[i][table] = column[i]` for every row. */
  function WithColumn(daily: seq<DailyRow>, table: string, column: seq<int>): (d: seq<DailyRow>)
    ensures |d| == |daily|
  {
    seq(|daily|, i requires 0 <= i < |daily| =>
      daily[i].(counts := daily[i].counts[table := if i < |column| then column[i] else 0]))
  }

  /** Checking one table from the loop state: (scan, per-day table in use, table, date column). */
  type Step = (Scan, bool, string, string) -> Checked

  function StepOf(s: Settings, valid: seq<string>, db: map<string, View>): Step {
    (sc: Scan, hasDaily: bool, t: string, col: string) => CheckTable(s, valid, hasDaily, sc, t, col, ViewOf(db, t))
  }

  /** The table loop from `scan`, after the rows `status` and with the per-day table `daily`. */
  function TableLoop(step: Step, tables: seq<(string, string)>,
                     scan: Scan, status: seq<Status>, daily: seq<DailyRow>): (seq<Status>, seq<DailyRow>, Scan)
    decreases |tables|
  {
    if tables == [] then (status, daily, scan)
    else
      var c := step(scan, daily != [], tables[0].0, tables[0].1);
      TableLoop(step, tables[1..], c.scan, status + [c.status],
                if c.column.Some? then WithColumn(daily, tables[0].0, c.column.value) else daily)
  }

  function StatusReport(s: Settings, tables: seq<(string, string)>, db: map<string, View>,
                        tradeDays: Option<seq<string>>, connected: bool): Report
  {
    if tables == [] || !connected then Report([], [], false)
    else
      match ValidDays(s, tradeDays)
      case None => Report([], [], false)
      case Some(valid) =>
        var r := TableLoop(StepOf(s, valid, db), tables, Scan(s.irregular, None, None), [], InitialDaily(s, valid, tradeDays));
        Report(r.0, r.1, s.optStyle && !r.2.irregular)
  }

  /** The `for i in range(len(valid_days))` loops: one table's count written into every per-day row. */
  method SetColumn(daily: seq<DailyRow>, table: string, column: seq<int>) returns (d: seq<DailyRow>)
    ensures d == WithColumn(daily, table, column)
  {
    d := daily;
    var i := 0;
    while i < |d|
      invariant 0 <= i <= |d| == |daily|
      invariant forall k :: 0 <= k < i ==> d[k] == WithColumn(daily, table, column)[k]
      invariant forall k :: i <= k < |d| ==> d[k] == daily[k]
    {
      d := d[i := d[i].(counts := d[i].counts[table := if i < |column| then column[i] else 0])];
      i := i + 1;
    }
  }

  /** `get_database_status`. */
  method GetDatabaseStatus(s: Settings, tables: seq<(string, string)>, db: map<string, View>,
                           tradeDays: Option<seq<string>>, connected: bool)
    returns (status: seq<Status>, daily: seq<DailyRow>, aliased: bool)
    ensures tables == [] ==> status == [] && daily == []
    ensures Report(status, daily, aliased) == StatusReport(s, tables, db, tradeDays, connected)
  {
    if tables == [] || !connected {
      return [], [], false;
    }
    var v := ValidDays(s, tradeDays);
    if v.None? {
      return [], [], false;
    }
    var valid := v.value;
    daily := InitialDaily(s, valid, tradeDays);
    status := [];
    var scan := Scan(s.irregular, None, None);
    ghost var step := StepOf(s, valid, db);
    ghost var goal := TableLoop(step, tables, scan, status, daily);
    var i := 0;
    while i < |tables|
      invariant 0 <= i <= |tables|
      invariant goal == TableLoop(step, tables[i..], scan, status, daily)
    {
      var c := CheckTable(s, valid, daily != [], scan, tables[i].0, tables[i].1, ViewOf(db, tables[i].0));
      assert tables[i..][0] == tables[i] && tables[i..][1..] == tables[i + 1..];
      status := status + [c.status];
      if c.column.Some? {
        daily := SetColumn(daily, tables[i].0, c.column.value);
      }
      scan := c.scan;
      i := i + 1;
    }
    aliased := s.optStyle && !scan.irregular;
  }

  // ---------------------------------------------------------------------------
  // Properties
  // ---------------------------------------------------------------------------

  /** The loop adds one row per table, named after it, in table order. */
  lemma {:induction false} OneRowPerTable(step: Step, tables: seq<(string, string)>,
                                          scan: Scan, status: seq<Status>, daily: seq<DailyRow>)
    requires forall sc, hd, t, col :: step(sc, hd, t, col).status.table == t
    ensures var r := TableLoop(step, tables, scan, status, daily).0;
      |r| == |status| + |tables| && forall i :: 0 <= i < |tables| ==> r[|status| + i].table == tables[i].0
    decreases |tables|
  {
    if tables != [] {
      var c := step(scan, daily != [], tables[0].0, tables[0].1);
      var daily' := if c.column.Some? then WithColumn(daily, tables[0].0, c.column.value) else daily;
      OneRowPerTable(step, tables[1..], c.scan, status + [c.status], daily');
      LoopKeepsRows(step, tables[1..], c.scan, status + [c.status], daily');
      var r := TableLoop(step, tables[1..], c.scan, status + [c.status], daily').0;
      assert r[|status|] == (status + [c.status])[|status|];
      forall i | 1 <= i < |tables|
        ensures r[|status| + i].table == tables[i].0
      {
        assert r[|status| + 1 + (i - 1)].table == tables[1..][i - 1].0;
      }
    }
  }

  /** The rows the loop started with are kept, in front of one new row per table. */
  lemma {:induction false} LoopKeepsRows(step: Step, tables: seq<(string, string)>,
                                         scan: Scan, status: seq<Status>, daily: seq<DailyRow>)
    ensures var r := TableLoop(step, tables, scan, status, daily).0;
      |r| == |status| + |tables| && r[..|status|] == status
    decreases |tables|
  {
    if tables != [] {
      var c := step(scan, daily != [], tables[0].0, tables[0].1);
      var daily' := if c.column.Some? then WithColumn(daily, tables[0].0, c.column.value) else daily;
      LoopKeepsRows(step, tables[1..], c.scan, status + [c.status], daily');
      var r := TableLoop(step, tables[1..], c.scan, status + [c.status], daily').0;
      assert r[..|status|] == (r[..|status| + 1])[..|status|];
    }
  }

  /** The per-day table keeps one row per valid day throughout the loop. */
  lemma {:induction false} LoopKeepsDays(step: Step, tables: seq<(string, string)>,
                                         scan: Scan, status: seq<Status>, daily: seq<DailyRow>)
    ensures |TableLoop(step, tables, scan, status, daily).1| == |daily|
    decreases |tables|
  {
    if tables != [] {
      var c := step(scan, daily != [], tables[0].0, tables[0].1);
      var daily' := if c.column.Some? then WithColumn(daily, tables[0].0, c.column.value) else daily;
      LoopKeepsDays(step, tables[1..], c.scan, status + [c.status], daily');
    }
  }

  /**
   * Once a table has set `irregular`, it stays set for the rest of the call,
   * and every later row other than an error row has no quality entries.
   */
  lemma IrregularSticky(s: Settings, valid: seq<string>, hasDaily: bool, scan: Scan,
                        table: string, dateCol: string, view: View)
    requires scan.irregular
    ensures var c := CheckTable(s, valid, hasDaily, scan, table, dateCol, view);
      c.scan.irregular && (c.status.quality.Some? ==> c.status == ErrorRow(s, table))
  {
  }

  lemma {:induction false} IrregularStaysSet(s: Settings, valid: seq<string>, db: map<string, View>,
                                             tables: seq<(string, string)>, scan: Scan, status: seq<Status>, daily: seq<DailyRow>)
    requires scan.irregular
    ensures var r := TableLoop(StepOf(s, valid, db), tables, scan, status, daily);
      && r.2.irregular
      && forall i :: |status| <= i < |r.0| && r.0[i].quality.Some? ==> r.0[i] == ErrorRow(s, r.0[i].table)
    decreases |tables|
  {
    if tables != [] {
      var step := StepOf(s, valid, db);
      var c := step(scan, daily != [], tables[0].0, tables[0].1);
      IrregularSticky(s, valid, daily != [], scan, tables[0].0, tables[0].1, ViewOf(db, tables[0].0));
      var daily' := if c.column.Some? then WithColumn(daily, tables[0].0, c.column.value) else daily;
      IrregularStaysSet(s, valid, db, tables[1..], c.scan, status + [c.status], daily');
      LoopKeepsRows(step, tables[1..], c.scan, status + [c.status], daily');
      var r := TableLoop(step, tables[1..], c.scan, status + [c.status], daily');
      assert r.0[|status|] == (status + [c.status])[|status|];
    }
  }

  /** A missing table gets the 'N/A'/0 row, and 0 for every day when the per-day table is in use. */
  lemma MissingTableRow(s: Settings, valid: seq<string>, hasDaily: bool, scan: Scan, table: string, dateCol: string)
    ensures var c := CheckTable(s, valid, hasDaily, scan, table, dateCol, Absent);
      && c.status.earliest.None? && c.status.latest.None? && c.status.records == 0
      && (c.status.quality.Some? ==> c.status.quality.value == Quality(None, None, None))
      && (hasDaily <==> c.column.Some?)
      && (c.column.Some? ==> |c.column.value| == |valid| && forall i :: 0 <= i < |valid| ==> c.column.value[i] == 0)
      && c.scan == scan
  {
  }

  /** A date-keyed table checked over a range records its own earliest date for later tables. */
  lemma RegularTableScan(s: Settings, valid: seq<string>, hasDaily: bool, scan: Scan,
                         table: string, dateCol: string, cols: set<string>, rows: Frame, countFails: bool)
    requires IsRange(s) && !scan.irregular && dateCol != "" && Lower(dateCol) in cols
    ensures var c := CheckTable(s, valid, hasDaily, scan, table, dateCol, Present(cols, rows, countFails));
      && !c.scan.irregular
      && c.scan.earliestTable == Some(TableEarliest(rows, dateCol))
  {
  }

  /** Unless its count query fails with no earlier counts to fall back on, it reports its stored range and row count. */
  lemma RegularTableRecords(s: Settings, valid: seq<string>, hasDaily: bool, scan: Scan,
                            table: string, dateCol: string, cols: set<string>, rows: Frame, countFails: bool)
    requires IsRange(s) && !scan.irregular && dateCol != "" && Lower(dateCol) in cols
    requires !countFails || scan.dayCounts.Some?
    ensures var c := CheckTable(s, valid, hasDaily, scan, table, dateCol, Present(cols, rows, countFails));
      c.status.records == |rows| && c.status.earliest == Earliest(rows, dateCol) && c.status.latest == Latest(rows, dateCol)
  {
  }

  /** The days a table has rows for within the window from `eff` to `end` (the keys of `count_dict`). */
  function StoredDays(rows: Frame, dateCol: string, eff: string, end: string, mode: CountMode): set<string> {
    Dict(DayCounts(rows, dateCol, eff, end, mode)).Keys
  }

  /**
   * For a date-keyed table checked over a range, the quality entries are
   * assessed on the expected days from the effective start on, against the
   * days that have rows in the window.
   */
  lemma CoverageOfRegularTable(s: Settings, valid: seq<string>, hasDaily: bool, scan: Scan,
                               table: string, dateCol: string, cols: set<string>, rows: Frame)
    requires IsRange(s)
    ensures var eff := EffectiveStart(s.start.value, rows, dateCol);
      var mode := CountModeOf(table, cols);
      Measure(s, valid, hasDaily, scan, table, dateCol, cols, rows, false).status.quality
        == Some(Assess(EffectiveDays(valid, eff), StoredDays(rows, dateCol, eff, s.end.value, mode),
                       DayCounts(rows, dateCol, eff, s.end.value, mode)))
  {
  }

  /** A date-keyed table checked over a non-empty window of expected days is measured. */
  lemma Measured(s: Settings, valid: seq<string>, hasDaily: bool, scan: Scan,
                 table: string, dateCol: string, cols: set<string>, rows: Frame, countFails: bool)
    requires IsRange(s) && !scan.irregular && dateCol != "" && Lower(dateCol) in cols
    requires EffectiveDays(valid, EffectiveStart(s.start.value, rows, dateCol)) != []
    ensures CheckTable(s, valid, hasDaily, scan, table, dateCol, Present(cols, rows, countFails))
         == Measure(s, valid, hasDaily, scan, table, dateCol, cols, rows, countFails)
  {
  }

  /** A day counts as stored exactly when it is a non-empty date of some row inside the window. */
  lemma StoredDaysMeaning(rows: Frame, dateCol: string, eff: string, end: string, mode: CountMode, d: string)
    ensures d in StoredDays(rows, dateCol, eff, end, mode)
        <==> d != "" && (exists r :: r in rows && Get(r, dateCol) == Some(d)) && StrLe(eff, d) && StrLe(d, end)
  {
    var dc := DayCounts(rows, dateCol, eff, end, mode);
    var ds := GroupDates(rows, dateCol, eff, end);
    DictKeys(dc, ds, d);
  }

  lemma DictKeys(dc: seq<(string, nat)>, ds: seq<string>, d: string)
    requires |dc| == |ds| && forall i :: 0 <= i < |dc| ==> dc[i].0 == ds[i]
    ensures d in Dict(dc) <==> d != "" && d in ds
  {
    if d in Dict(dc) {
      var i :| 0 <= i < |dc| && dc[i].0 == d;
      assert ds[i] == d;
    }
  }

  /**
   * As written, a table without its date column that comes before any
   * date-keyed table in a range check reads the still-unset
   * `earliest_table_date`, so it gets the error row (record count 0).
   */
  lemma IrregularFirstTable(s: Settings, valid: seq<string>, hasDaily: bool, table: string, dateCol: string,
                            cols: set<string>, rows: Frame, countFails: bool)
    requires IsRange(s) && cols != {} && Lower(dateCol) !in cols
    ensures CheckTable(s, valid, hasDaily, Scan(s.irregular, None, None), table, dateCol, Present(cols, rows, countFails)).status
         == ErrorRow(s, table)
  {
  }

  /** The earliest and latest stored dates bound every stored date. */
  lemma StoredDateBounds(rows: Frame, c: string, r: Row)
    requires r in rows && Get(r, c).Some?
    ensures Earliest(rows, c).Some? ==> StrLe(Earliest(rows, c).value, Get(r, c).value)
    ensures Latest(rows, c).Some? ==> StrLe(Get(r, c).value, Latest(rows, c).value)
    ensures Earliest(rows, c).None? ==> Get(r, c).value == "" || exists v :: v in Db.DateValues(rows, c) && v == "" && v != Get(r, c).value
  {
    assert Get(r, c).value in Db.DateValues(rows, c);
  }

  /** Distinct codes never outnumber the rows of a day. */
  lemma DistinctAtMostRows(rows: Frame, c: string, d: string)
    ensures DayCount(rows, c, d, DistinctCodes) <= DayCount(rows, c, d, AllRows)
  {
    CodesFromRows(rows, c, d);
  }

  lemma {:induction false} CodesFromRows(rows: Frame, c: string, d: string)
    ensures |CodesOn(rows, c, d)| <= |RowsOn(rows, c, d)|
  {
    if rows != [] {
      CodesFromRows(rows[1..], c, d);
      var r := rows[0];
      assert forall x :: x in rows <==> x == r || x in rows[1..];
      if Get(r, c) == Some(d) && Get(r, "ts_code").Some? {
        assert CodesOn(rows, c, d) == CodesOn(rows[1..], c, d) + {Get(r, "ts_code").value};
        assert RowsOn(rows, c, d) == [r] + RowsOn(rows[1..], c, d);
      } else if Get(r, c) == Some(d) {
        assert CodesOn(rows, c, d) == CodesOn(rows[1..], c, d);
        assert RowsOn(rows, c, d) == [r] + RowsOn(rows[1..], c, d);
      } else {
        assert CodesOn(rows, c, d) == CodesOn(rows[1..], c, d);
      }
    }
  }

  /** When every day has the same positive count, no day is anomalous. */
  lemma EvenCountsNoAnomaly(dc: seq<(string, nat)>, k: nat)
    requires dc != [] && k >= 1 && forall i :: 0 <= i < |dc| ==> dc[i].1 == k
    ensures AnomaliesOf(dc) == NoAnomaly
  {
    var cs := CountsOf(dc);
    SumConst(cs, k);
    var n := |cs| as real;
    assert Mean(cs) == k as real by {
      assert SumReal(cs) == n * (k as real);
      assert n * (k as real) / n == k as real;
    }
    SquaresConst(cs, k);
    forall i | 0 <= i < |dc|
      ensures !Below(dc[i].1, cs)
    {
    }
  }

  lemma {:induction false} SumConst(xs: seq<nat>, k: nat)
    requires forall i :: 0 <= i < |xs| ==> xs[i] == k
    ensures SumReal(xs) == (|xs| as real) * (k as real)
  {
    if xs != [] {
      SumConst(xs[1..], k);
    }
  }

  lemma {:induction false} SquaresConst(xs: seq<nat>, k: nat)
    requires forall i :: 0 <= i < |xs| ==> xs[i] == k
    ensures SquaresFrom(xs, k as real) == 0.0
  {
    if xs != [] {
      SquaresConst(xs[1..], k);
    }
  }
}
