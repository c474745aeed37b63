/**
 * The decision logic of scripts/daily_fetcher.py: the per-table lookback, the
 * start date of an incremental update, the reference trade date, category
 * validation, the before/after comparison table, and the table loop of
 * `run_daily_fetch` with each table's fetch window and the
 * consecutive-server-error abort.
 *
 * The clock is a parameter (`today`, `hour`), the trade calendar query is a
 * parameter (`None` when it raised), `get_table_last_date` is the oracle
 * `lastDate(category, table)`, and each table's `fetch_and_store_data` call is
 * the oracle `fetch(category, table, start, end)`.
 */
module DailyFetcher {
  import opened Common
  import opened Calendar

  // ---------------------------------------------------------------------------
  // Lookback and start date (lines 266-278, 321-329, 382-403)
  // ---------------------------------------------------------------------------

  /** Tables whose data is published late, with their lookback in days. */
  const DelayedTables: map<string, int> := map[
    "index_global" := 5, "margin" := 5, "margin_detail" := 5, "shibor_quote" := 3,
    "fund_nav" := 5, "bond_blk" := 5, "bond_blk_detail" := 5]

  const DefaultLookbackDays := 1

  function TableDelay(table: string): int {
    if table in DelayedTables then DelayedTables[table] else DefaultLookbackDays
  }

  /** `get_lookback_days`: the table's delay, raised to the global override when one is set. */
  function LookbackDays(table: string, globalOverride: Option<int>): (r: int)
    ensures r >= TableDelay(table)
    ensures globalOverride.Some? ==> r >= globalOverride.value
    ensures r == TableDelay(table) || (globalOverride.Some? && r == globalOverride.value)
    ensures globalOverride.None? ==> r == TableDelay(table)
  {
    if globalOverride.Some? && globalOverride.value > TableDelay(table) then globalOverride.value
    else TableDelay(table)
  }

  /** `s` parsed, moved `k` days back and formatted; None when it does not parse or leaves the datetime range. */
  function ShiftBack(s: string, k: int): (r: Option<string>)
    ensures r.Some? ==> IsDateString(s) && IsDateString(r.value)
  {
    match Parse(s)
    case None => None
    case Some(d) =>
      var x := AddDays(d, -k);
      if InRange(x) then
        ParseFormat(x);
        Some(Format(x))
      else None
  }

  /**
   * `calculate_start_date`: 30 days before `end` for a table without data,
   * otherwise `lookback` days before its last date. None stands for the
   * exception `strptime` or the date arithmetic raises.
   */
  function CalculateStartDate(last: Option<string>, lookback: int, end: string): Option<string> {
    if !Truthy(last) then ShiftBack(end, 30) else ShiftBack(last.value, lookback)
  }

  /** The start date lies exactly `k` days before the date it is computed from. */
  lemma ShiftBackMeaning(s: string, k: int)
    requires ShiftBack(s, k).Some?
    ensures Parse(ShiftBack(s, k).value) == Some(AddDays(Parse(s).value, -k))
  {
    ParseFormat(AddDays(Parse(s).value, -k));
  }

  /**
   * With a non-negative lookback the start is never after the last stored
   * date, and it does not depend on `end` at all (so it can lie after `end`).
   */
  lemma StartFromLastDate(last: string, lookback: int, end1: string, end2: string)
    requires last != "" && lookback >= 0
    requires CalculateStartDate(Some(last), lookback, end1).Some?
    ensures CalculateStartDate(Some(last), lookback, end1) == CalculateStartDate(Some(last), lookback, end2)
    ensures StrLe(CalculateStartDate(Some(last), lookback, end1).value, last)
  {
    var d := Parse(last).value;
    var x := AddDays(d, -lookback);
    FormatParse(last);
    FormatOrder(x, d);
    if lookback == 0 {
      StrLeRefl(last);
    }
  }

  /** Without stored data the window is the 30 days before `end`, and the start is before `end`. */
  lemma StartWithoutData(end: string, lookback: int)
    requires CalculateStartDate(None, lookback, end).Some?
    ensures StrLt(CalculateStartDate(None, lookback, end).value, end)
  {
    var d := Parse(end).value;
    FormatParse(end);
    FormatOrder(AddDays(d, -30), d);
  }

  // ---------------------------------------------------------------------------
  // Reference trade date (lines 332-368)
  // ---------------------------------------------------------------------------

  /** The latest of `days` on or before `ref` (`... cal_date <= ? ORDER BY cal_date DESC LIMIT 1`). */
  function LatestOnOrBefore(days: seq<string>, ref: string): (r: Option<string>)
    ensures r.None? <==> forall d :: d in days ==> !StrLe(d, ref)
    ensures r.Some? ==> r.value in days && StrLe(r.value, ref)
    ensures r.Some? ==> forall d :: d in days && StrLe(d, ref) ==> StrLe(d, r.value)
  {
    if days == [] then None
    else
      var rest := LatestOnOrBefore(days[1..], ref);
      assert days == [days[0]] + days[1..];
      assert days[0] in days;
      assert forall d :: d in days ==> d == days[0] || d in days[1..];
      if !StrLe(days[0], ref) then
        assert rest.None? ==> forall d :: d in days ==> !StrLe(d, ref);
        assert rest.Some? ==> rest.value in days && StrLe(rest.value, ref);
        rest
      else if rest.None? then
        StrLeRefl(days[0]);
        Some(days[0])
      else
        StrLeTotal(days[0], rest.value);
        StrLeRefl(days[0]);
        StrLeRefl(rest.value);
        var m := if StrLe(days[0], rest.value) then rest.value else days[0];
        forall d | d in days && StrLe(d, ref)
          ensures StrLe(d, m)
        {
          if d != days[0] {
            assert StrLe(d, rest.value);
            if m != rest.value {
              StrLeTrans(d, rest.value, m);
            }
          }
        }
        Some(m)
  }

  /**
   * `get_last_trade_date`: an explicit target unchanged; otherwise the latest
   * open day on or before the reference day (today from 18:00, yesterday
   * before), or the reference day itself when the calendar has none or the
   * query raised.
   */
  function LastTradeDate(target: Option<string>, today: Ymd, hour: int, openDays: Option<seq<string>>): (r: string)
    requires InRange(today) && InRange(Prev(today))
    ensures Truthy(target) ==> r == target.value
    ensures !Truthy(target) && hour >= 18 ==> StrLe(r, Format(today))
    ensures !Truthy(target) && hour < 18 ==> StrLe(r, Format(Prev(today)))
    ensures !Truthy(target) && openDays.Some? && r in openDays.value ==>
      forall d :: d in openDays.value && StrLe(d, if hour >= 18 then Format(today) else Format(Prev(today))) ==> StrLe(d, r)
  {
    if Truthy(target) then target.value
    else
      var ref := if hour >= 18 then Format(today) else Format(Prev(today));
      StrLeRefl(ref);
      match openDays
      case None => ref
      case Some(days) =>
        match LatestOnOrBefore(days, ref)
        case None => ref
        case Some(x) => x
  }

  // ---------------------------------------------------------------------------
  // Category validation (lines 371-379)
  // ---------------------------------------------------------------------------

  /** `validate_categories`: the known categories, in the order given. */
  function ValidateCategories(cats: seq<string>, known: set<string>): (r: seq<string>)
    ensures forall c :: c in r <==> c in cats && c in known
    ensures |r| <= |cats|
  {
    Filter(cats, c => c in known)
  }

  /**
   * Validation keeps the given order: the `k`-th kept category is the input's
   * `ix[k]`-th, for strictly increasing `ix`.
   */
  lemma {:induction false} ValidateKeepsOrder(cats: seq<string>, known: set<string>) returns (ix: seq<nat>)
    ensures |ix| == |ValidateCategories(cats, known)|
    ensures forall k :: 0 <= k < |ix| ==> ix[k] < |cats| && cats[ix[k]] == ValidateCategories(cats, known)[k]
    ensures forall k, l :: 0 <= k < l < |ix| ==> ix[k] < ix[l]
  {
    if cats == [] {
      ix := [];
    } else {
      var tail := ValidateKeepsOrder(cats[1..], known);
      var shifted := seq(|tail|, k requires 0 <= k < |tail| => tail[k] + 1);
      if cats[0] in known {
        ix := [0] + shifted;
        assert ValidateCategories(cats, known) == [cats[0]] + ValidateCategories(cats[1..], known);
      } else {
        ix := shifted;
        assert ValidateCategories(cats, known) == ValidateCategories(cats[1..], known);
      }
    }
  }

  // ---------------------------------------------------------------------------
  // Comparison table (lines 104-131)
  // ---------------------------------------------------------------------------

  function CountOr0(m: map<string, int>, d: string): int {
    if d in m then m[d] else 0
  }

  /** One comparison row: date, count before, count after, change. */
  datatype CompareRow = CompareRow(date: string, before: int, after: int, diff: int)

  /** The distinct elements of `s` as a set-order-free sequence. */
  method SeqOfSet(s: set<string>) returns (r: seq<string>)
    ensures forall x :: x in r <==> x in s
    ensures forall i, j :: 0 <= i < j < |r| ==> r[i] != r[j]
  {
    r := [];
    var rest := s;
    while rest != {}
      invariant rest <= s
      invariant forall x :: x in r <==> x in s - rest
      invariant forall i, j :: 0 <= i < j < |r| ==> r[i] != r[j]
    {
      var x :| x in rest;
      assert x !in r;
      r := r + [x];
      rest := rest - {x};
    }
  }

  /** A sorted sequence without repetitions is strictly ascending. */
  lemma SortedDistinct(s: seq<string>)
    requires SortedStrs(s) && forall i, j :: 0 <= i < j < |s| ==> s[i] != s[j]
    ensures StrictlyAscending(s)
  {
  }

  /** Strictly newest first. */
  predicate Descending(ds: seq<string>) {
    forall i, j :: 0 <= i < j < |ds| ==> StrLt(ds[j], ds[i])
  }

  /**
   * `ds` lists the newest `cap` of `keys` (all of them when there are fewer),
   * newest first: every key left out is older than every key shown.
   */
  predicate NewestFirst(ds: seq<string>, keys: set<string>, cap: nat) {
    && |ds| == (if |keys| < cap then |keys| else cap)
    && (forall d :: d in ds ==> d in keys)
    && Descending(ds)
    && forall d, i :: d in keys && d !in ds && 0 <= i < |ds| ==> StrLt(d, ds[i])
  }

  /** The dates of either count, newest first, each once. */
  method DatesDesc(before: map<string, int>, after: map<string, int>) returns (dates: seq<string>)
    ensures |dates| == |before.Keys + after.Keys|
    ensures forall d :: d in dates <==> d in before.Keys + after.Keys
    ensures Descending(dates)
  {
    var keys := SeqOfSet(before.Keys + after.Keys);
    SeqSetSize(keys, before.Keys + after.Keys);
    SortDistinct(keys);
    dates := Reverse(Sort(keys));
    ReverseDescending(Sort(keys));
  }

  /** Sorting distinct strings repeats none of them. */
  lemma SortNoRepeats(keys: seq<string>)
    requires forall i, j :: 0 <= i < j < |keys| ==> keys[i] != keys[j]
    ensures forall i, j :: 0 <= i < j < |Sort(keys)| ==> Sort(keys)[i] != Sort(keys)[j]
  {
    var asc := Sort(keys);
    forall i, j | 0 <= i < j < |asc|
      ensures asc[i] != asc[j]
    {
      if asc[i] == asc[j] {
        Twice(asc, i, j);
        DistinctCount(keys, asc[i]);
      }
    }
  }

  /** A string found at two positions occurs at least twice. */
  lemma Twice(s: seq<string>, i: nat, j: nat)
    requires i < j < |s| && s[i] == s[j]
    ensures multiset(s)[s[i]] >= 2
  {
    assert s == s[..j] + s[j..];
    assert s[..j] == s[..i] + [s[i]] + s[i + 1..j];
    assert s[j..] == [s[j]] + s[j + 1..];
  }

  /** Sorting distinct strings gives a strictly ascending list of the same strings. */
  lemma SortDistinct(keys: seq<string>)
    requires forall i, j :: 0 <= i < j < |keys| ==> keys[i] != keys[j]
    ensures StrictlyAscending(Sort(keys)) && |Sort(keys)| == |keys|
    ensures forall x :: x in Sort(keys) <==> x in keys
  {
    var asc := Sort(keys);
    assert forall x :: x in asc <==> x in keys by {
      assert forall x :: x in asc <==> x in multiset(asc);
    }
    SortNoRepeats(keys);
    SortedDistinct(asc);
    assert |multiset(asc)| == |multiset(keys)|;
  }

  /** A strictly ascending list reversed is strictly descending, with the same elements. */
  lemma ReverseDescending(asc: seq<string>)
    requires StrictlyAscending(asc)
    ensures Descending(Reverse(asc))
    ensures forall x :: x in Reverse(asc) <==> x in asc
  {
    var r := Reverse(asc);
    forall x | x in asc
      ensures x in r
    {
      var j :| 0 <= j < |asc| && asc[j] == x;
      assert r[|asc| - 1 - j] == x;
    }
  }

  /**
   * `print_comparison_table`: the newest 15 dates of either count, newest
   * first; each row holds both counts of its date and their change, and
   * `total` adds the changes up.
   */
  method ComparisonRows(before: map<string, int>, after: map<string, int>) returns (rows: seq<CompareRow>, total: int)
    ensures NewestFirst(RowDates(rows), before.Keys + after.Keys, 15)
    ensures forall i :: 0 <= i < |rows| ==> rows[i] == RowOf(before, after, rows[i].date)
    ensures total == Sum(Diffs(rows))
  {
    var dates := DatesDesc(before, after);
    var n := if |dates| < 15 then |dates| else 15;
    rows, total := BuildRows(before, after, dates[..n]);
    assert RowDates(rows) == dates[..n];
    ShownAreNewest(dates, before.Keys + after.Keys, n);
  }

  /** The rows of the dates shown, in order, and the sum of their changes. */
  method BuildRows(before: map<string, int>, after: map<string, int>, dates: seq<string>)
    returns (rows: seq<CompareRow>, total: int)
    ensures rows == RowsOf(before, after, dates)
    ensures total == Sum(Diffs(rows))
  {
    rows := [];
    total := 0;
    var i := 0;
    while i < |dates|
      invariant 0 <= i <= |dates|
      invariant rows == RowsOf(before, after, dates[..i])
      invariant total == Sum(Diffs(rows))
    {
      var row := RowOf(before, after, dates[i]);
      DiffsAppend(rows, row);
      SumAppend(Diffs(rows), [row.diff]);
      total := total + row.diff;
      RowsOfSnoc(before, after, dates, i);
      rows := rows + [row];
      i := i + 1;
    }
    assert dates[..i] == dates;
  }

  /** The row of one date: its count before, its count after (0 where missing) and the change. */
  function RowOf(before: map<string, int>, after: map<string, int>, d: string): CompareRow {
    CompareRow(d, CountOr0(before, d), CountOr0(after, d), CountOr0(after, d) - CountOr0(before, d))
  }

  function RowsOf(before: map<string, int>, after: map<string, int>, ds: seq<string>): (rows: seq<CompareRow>)
    ensures |rows| == |ds| && forall i :: 0 <= i < |ds| ==> rows[i] == RowOf(before, after, ds[i])
  {
    seq(|ds|, i requires 0 <= i < |ds| => RowOf(before, after, ds[i]))
  }

  lemma RowsOfSnoc(before: map<string, int>, after: map<string, int>, ds: seq<string>, i: nat)
    requires i < |ds|
    ensures RowsOf(before, after, ds[..i + 1]) == RowsOf(before, after, ds[..i]) + [RowOf(before, after, ds[i])]
  {
  }

  function RowDates(rows: seq<CompareRow>): (ds: seq<string>)
    ensures |ds| == |rows| && forall i :: 0 <= i < |rows| ==> ds[i] == rows[i].date
  {
    seq(|rows|, i requires 0 <= i < |rows| => rows[i].date)
  }

  /** The first `n` of all the dates newest first are the newest `n`. */
  lemma ShownAreNewest(dates: seq<string>, keys: set<string>, n: nat)
    requires |dates| == |keys| && forall d :: d in dates <==> d in keys
    requires Descending(dates)
    requires n == if |keys| < 15 then |keys| else 15
    ensures NewestFirst(dates[..n], keys, 15)
  {
    forall d, i | d in keys && d !in dates[..n] && 0 <= i < n
      ensures StrLt(d, dates[..n][i])
    {
      var j :| 0 <= j < |dates| && dates[j] == d;
      assert dates[..n][i] == dates[i];
    }
  }



  function Diffs(rows: seq<CompareRow>): (ds: seq<int>)
    ensures |ds| == |rows| && forall i :: 0 <= i < |rows| ==> ds[i] == rows[i].diff
  {
    seq(|rows|, i requires 0 <= i < |rows| => rows[i].diff)
  }

  lemma DiffsAppend(rows: seq<CompareRow>, r: CompareRow)
    ensures Diffs(rows + [r]) == Diffs(rows) + [r.diff]
  {
  }

  lemma {:induction false} DistinctCount(s: seq<string>, x: string)
    requires forall i, j :: 0 <= i < j < |s| ==> s[i] != s[j]
    ensures multiset(s)[x] <= 1
  {
    if s != [] {
      assert s == [s[0]] + s[1..];
      DistinctCount(s[1..], x);
      if s[0] == x {
        assert x !in s[1..];
      }
    }
  }

  lemma {:induction false} SeqSetSize(s: seq<string>, t: set<string>)
    requires forall x :: x in s <==> x in t
    requires forall i, j :: 0 <= i < j < |s| ==> s[i] != s[j]
    ensures |s| == |t|
  {
    if s == [] {
      assert t == {};
    } else {
      assert forall i, j :: 0 <= i < j < |s[1..]| ==> s[1..][i] != s[1..][j] by {
        forall i, j | 0 <= i < j < |s[1..]|
          ensures s[1..][i] != s[1..][j]
        {
          assert s[1..][i] == s[i + 1] && s[1..][j] == s[j + 1];
        }
      }
      assert s[0] !in s[1..];
      SeqSetSize(s[1..], t - {s[0]});
    }
  }

  // ---------------------------------------------------------------------------
  // The table loop of run_daily_fetch (lines 421-588, 746-747)
  // ---------------------------------------------------------------------------

  /**
   * What the run is given: the target end date, `auto_range`, the `--lookback`
   * override, and `get_table_last_date` for a (category, table) pair (None for
   * a missing or empty table or a failed query; the pair fixes the database
   * path and the date column).
   */
  datatype Settings = Settings(end: string, autoRange: bool, lookbackOverride: Option<int>,
                               lastDate: (string, string) -> Option<string>)

  /** A `date_ranges` entry; only the dry run records the lookback. */
  datatype DateRange = DateRange(last: Option<string>, start: string, end: string, lookback: Option<int>)

  /**
   * A table's window: from `calculate_start_date` over its last stored date and
   * lookback under `auto_range`, the end date alone without it. None stands
   * for the exception `calculate_start_date` raises, outside any `try`.
   */
  function Window(cfg: Settings, cat: string, table: string): Option<DateRange> {
    if !cfg.autoRange then Some(DateRange(None, cfg.end, cfg.end, None))
    else
      var last := cfg.lastDate(cat, table);
      match CalculateStartDate(last, LookbackDays(table, cfg.lookbackOverride), cfg.end)
      case None => None
      case Some(start) => Some(DateRange(last, start, cfg.end, None))
  }

  /** What one `fetch_and_store_data` call did: stored rows, raised ConnectionError, or raised anything else. */
  datatype Attempt = Stored(n: int) | ServerError | Failed

  /**
   * The `fetch_and_store_data(category, start_date, end_date, table)` call as
   * an oracle over its arguments.
   */
  type Fetch = (string, string, string, string) -> Attempt

  /** A table's turn: the call's outcome, or the exception raised while computing its window. */
  datatype Outcome = Ran(a: Attempt) | Raised

  function TableOutcome(cfg: Settings, fetch: Fetch, cat: string, table: string): Outcome {
    match Window(cfg, cat, table)
    case None => Raised
    case Some(w) => Ran(fetch(cat, table, w.start, w.end))
  }

  /** The per-category entry of `results`. */
  datatype CatResult = CatResult(tables: seq<string>, success: seq<string>, failed: seq<string>,
                                 skipped: seq<string>, storedCount: int, ranges: map<string, DateRange>)

  const MaxConsecutiveErrors := 3

  /** The consecutive-server-error counter after one more table. */
  function Track(streak: nat, a: Attempt): nat {
    match a
    case Stored(_) => 0
    case ServerError => streak + 1
    case Failed => streak
  }

  function Note(r: CatResult, table: string, a: Attempt): CatResult {
    match a
    case Stored(n) => r.(success := r.success + [table], storedCount := r.storedCount + n)
    case _ => r.(failed := r.failed + [table])
  }

  /**
   * The tables of one category from `tables` on: the result, the counter, and
   * whether the run aborts; None when a window raised.
   */
  function CategoryLoop(cfg: Settings, cat: string, tables: seq<string>, fetch: Fetch,
                        streak: nat, r: CatResult): Option<(CatResult, nat, bool)>
  {
    if tables == [] then Some((r, streak, false))
    else
      match Window(cfg, cat, tables[0])
      case None => None
      case Some(w) =>
        var a := fetch(cat, tables[0], w.start, w.end);
        var r' := Note(r.(ranges := r.ranges[tables[0] := w]), tables[0], a);
        var s' := Track(streak, a);
        if a.ServerError? && s' >= MaxConsecutiveErrors then Some((r', s', true))
        else CategoryLoop(cfg, cat, tables[1..], fetch, s', r')
  }

  /** A dry-run `date_ranges` entry: the window with the table's lookback. */
  function WithLookback(cfg: Settings, table: string, w: DateRange): DateRange {
    w.(lookback := Some(LookbackDays(table, cfg.lookbackOverride)))
  }

  /** The dry run's `date_ranges` for `tables`, added to `acc`; None when a window raised. */
  function DryRanges(cfg: Settings, cat: string, tables: seq<string>, acc: map<string, DateRange>)
    : Option<map<string, DateRange>>
  {
    if tables == [] then Some(acc)
    else
      match Window(cfg, cat, tables[0])
      case None => None
      case Some(w) =>
        DryRanges(cfg, cat, tables[1..], acc[tables[0] := WithLookback(cfg, tables[0], w)])
  }

  function TablesOf(daily: map<string, seq<string>>, c: string): seq<string> {
    if c in daily then daily[c] else []
  }

  /** The categories from `cats` on: the results and whether the run aborted; None when a window raised. */
  function DailyLoop(cfg: Settings, cats: seq<string>, daily: map<string, seq<string>>, dryRun: bool,
                     fetch: Fetch, streak: nat, results: map<string, CatResult>): Option<(map<string, CatResult>, bool)>
  {
    if cats == [] then Some((results, false))
    else
      var c := cats[0];
      var ts := TablesOf(daily, c);
      if dryRun then
        match DryRanges(cfg, c, ts, map[])
        case None => None
        case Some(rs) => DailyLoop(cfg, cats[1..], daily, dryRun, fetch, streak, results[c := CatResult(ts, [], [], ts, 0, rs)])
      else
        match CategoryLoop(cfg, c, ts, fetch, streak, CatResult(ts, [], [], [], 0, map[]))
        case None => None
        case Some(x) =>
          if x.2 then Some((results[c := x.0], true))
          else DailyLoop(cfg, cats[1..], daily, dryRun, fetch, x.1, results[c := x.0])
  }

  /** One table's window, computed as the loop body does; `raised` when `calculate_start_date` raised. */
  method TableWindow(cfg: Settings, cat: string, table: string) returns (raised: bool, w: DateRange)
    ensures raised <==> Window(cfg, cat, table).None?
    ensures !raised ==> Window(cfg, cat, table) == Some(w)
  {
    var lookback := LookbackDays(table, cfg.lookbackOverride);
    var last: Option<string>;
    var start: string;
    if cfg.autoRange {
      last := cfg.lastDate(cat, table);
      var s := CalculateStartDate(last, lookback, cfg.end);
      if s.None? {
        return true, DateRange(None, cfg.end, cfg.end, None);
      }
      start := s.value;
    } else {
      last := None;
      start := cfg.end;
    }
    return false, DateRange(last, start, cfg.end, None);
  }

  /** The inner `for table_name in tables` loop; `raised` when a window raised. */
  method RunCategory(cfg: Settings, cat: string, tables: seq<string>, fetch: Fetch, streak0: nat)
      returns (raised: bool, r: CatResult, streak: nat, aborted: bool)
    ensures raised <==> CategoryLoop(cfg, cat, tables, fetch, streak0, CatResult(tables, [], [], [], 0, map[])).None?
    ensures !raised ==> Some((r, streak, aborted)) == CategoryLoop(cfg, cat, tables, fetch, streak0, CatResult(tables, [], [], [], 0, map[]))
  {
    r := CatResult(tables, [], [], [], 0, map[]);
    streak := streak0;
    ghost var goal := CategoryLoop(cfg, cat, tables, fetch, streak0, r);
    var i := 0;
    while i < |tables|
      invariant 0 <= i <= |tables|
      invariant goal == CategoryLoop(cfg, cat, tables[i..], fetch, streak, r)
    {
      var t := tables[i];
      assert tables[i..][0] == t && tables[i..][1..] == tables[i + 1..];
      var bad, w := TableWindow(cfg, cat, t);
      if bad {
        return true, r, streak, false;
      }
      var a := fetch(cat, t, w.start, w.end);
      r := Note(r.(ranges := r.ranges[t := w]), t, a);
      streak := Track(streak, a);
      if a.ServerError? && streak >= MaxConsecutiveErrors {
        return false, r, streak, true;
      }
      i := i + 1;
    }
    raised, aborted := false, false;
  }

  /** The dry run's loop over one category's tables; None when a window raised. */
  method DryRunCategory(cfg: Settings, cat: string, tables: seq<string>) returns (res: Option<map<string, DateRange>>)
    ensures res == DryRanges(cfg, cat, tables, map[])
  {
    var ranges := map[];
    var i := 0;
    while i < |tables|
      invariant 0 <= i <= |tables|
      invariant DryRanges(cfg, cat, tables, map[]) == DryRanges(cfg, cat, tables[i..], ranges)
    {
      var t := tables[i];
      assert tables[i..][0] == t && tables[i..][1..] == tables[i + 1..];
      var window := Window(cfg, cat, t);
      if window.None? {
        return None;
      }
      ranges := ranges[t := WithLookback(cfg, t, window.value)];
      i := i + 1;
    }
    return Some(ranges);
  }

  /**
   * `run_daily_fetch` from the validated categories on: a dry run lists every
   * table as skipped with its window; otherwise each table is fetched over its
   * window in order and the run stops after the third consecutive server
   * error. `raised` when a window raised.
   */
  method RunDailyFetch(cfg: Settings, cats: seq<string>, daily: map<string, seq<string>>, dryRun: bool, fetch: Fetch)
      returns (raised: bool, results: map<string, CatResult>, aborted: bool)
    ensures raised <==> DailyLoop(cfg, cats, daily, dryRun, fetch, 0, map[]).None?
    ensures !raised ==> Some((results, aborted)) == DailyLoop(cfg, cats, daily, dryRun, fetch, 0, map[])
  {
    results := map[];
    raised, aborted := false, false;
    var streak: nat := 0;
    ghost var goal := DailyLoop(cfg, cats, daily, dryRun, fetch, 0, map[]);
    var i := 0;
    while i < |cats|
      invariant 0 <= i <= |cats|
      invariant goal == DailyLoop(cfg, cats[i..], daily, dryRun, fetch, streak, results)
    {
      assert cats[i..][0] == cats[i] && cats[i..][1..] == cats[i + 1..];
      var c := cats[i];
      var ts := TablesOf(daily, c);
      if dryRun {
        var rs := DryRunCategory(cfg, c, ts);
        if rs.None? {
          return true, results, false;
        }
        results := results[c := CatResult(ts, [], [], ts, 0, rs.value)];
      } else {
        var bad, r, s, stop := RunCategory(cfg, c, ts, fetch, streak);
        if bad {
          return true, results, false;
        }
        results := results[c := r];
        if stop {
          return false, results, true;
        }
        streak := s;
      }
      i := i + 1;
    }
  }

  // ---------------------------------------------------------------------------
  // Properties of the table loop
  // ---------------------------------------------------------------------------

  /** The counter after a sequence of outcomes. */
  function Streak(streak: nat, outcomes: seq<Outcome>): nat
    decreases |outcomes|
  {
    if outcomes == [] then streak
    else Streak(if outcomes[0].Ran? then Track(streak, outcomes[0].a) else streak, outcomes[1..])
  }

  function Outcomes(cfg: Settings, cat: string, tables: seq<string>, fetch: Fetch): (outcomes: seq<Outcome>)
    ensures |outcomes| == |tables| && forall i :: 0 <= i < |tables| ==> outcomes[i] == TableOutcome(cfg, fetch, cat, tables[i])
  {
    seq(|tables|, i requires 0 <= i < |tables| => TableOutcome(cfg, fetch, cat, tables[i]))
  }

  /** Every table's window was computed. */
  predicate NoRaise(outcomes: seq<Outcome>) {
    forall i :: 0 <= i < |outcomes| ==> outcomes[i].Ran?
  }

  /** Some prefix of the outcomes, without a raised window, brings the counter to the limit. */
  predicate HitsLimit(streak: nat, outcomes: seq<Outcome>) {
    exists k :: 0 < k <= |outcomes| && NoRaise(outcomes[..k]) && Streak(streak, outcomes[..k]) >= MaxConsecutiveErrors
  }

  lemma HitsLimitCons(streak: nat, outcomes: seq<Outcome>)
    requires outcomes != []
    ensures HitsLimit(streak, outcomes)
        <==> outcomes[0].Ran? && (Track(streak, outcomes[0].a) >= MaxConsecutiveErrors
                                  || HitsLimit(Track(streak, outcomes[0].a), outcomes[1..]))
  {
    if outcomes[0].Ran? {
      var t := Track(streak, outcomes[0].a);
      forall k | 0 < k <= |outcomes|
        ensures Streak(streak, outcomes[..k]) == Streak(t, outcomes[1..][..k - 1])
        ensures NoRaise(outcomes[..k]) <==> NoRaise(outcomes[1..][..k - 1])
      {
        assert outcomes[..k][1..] == outcomes[1..][..k - 1];
        assert forall i :: 0 < i < k ==> outcomes[..k][i] == outcomes[1..][..k - 1][i - 1];
      }
      if HitsLimit(t, outcomes[1..]) {
        var k :| 0 < k <= |outcomes[1..]| && NoRaise(outcomes[1..][..k]) && Streak(t, outcomes[1..][..k]) >= MaxConsecutiveErrors;
        assert Streak(streak, outcomes[..k + 1]) >= MaxConsecutiveErrors;
      }
      if t >= MaxConsecutiveErrors {
        assert Streak(t, outcomes[1..][..0]) == t;
        assert Streak(streak, outcomes[..1]) >= MaxConsecutiveErrors;
      }
      if HitsLimit(streak, outcomes) {
        var k :| 0 < k <= |outcomes| && NoRaise(outcomes[..k]) && Streak(streak, outcomes[..k]) >= MaxConsecutiveErrors;
        if k == 1 {
          assert Streak(t, outcomes[1..][..0]) == t;
        } else {
          assert NoRaise(outcomes[1..][..k - 1]) && Streak(t, outcomes[1..][..k - 1]) >= MaxConsecutiveErrors;
        }
      }
    }
  }

  /**
   * A category aborts exactly when some prefix of its outcomes, before any
   * window raised, brings the consecutive-server-error counter to 3; the
   * counter is then 3. It raises exactly when it does not abort and some
   * window raised. Otherwise the counter carried on is the counter after all
   * of the category's outcomes.
   */
  lemma {:induction false} CategoryAbort(cfg: Settings, cat: string, tables: seq<string>, fetch: Fetch,
                                         streak: nat, r: CatResult)
    requires streak < MaxConsecutiveErrors
    ensures var res := CategoryLoop(cfg, cat, tables, fetch, streak, r);
      && (res.Some? && res.value.2 <==> HitsLimit(streak, Outcomes(cfg, cat, tables, fetch)))
      && (res.None? <==> !HitsLimit(streak, Outcomes(cfg, cat, tables, fetch)) && !NoRaise(Outcomes(cfg, cat, tables, fetch)))
      && (res.Some? && res.value.2 ==> res.value.1 == MaxConsecutiveErrors)
      && (res.Some? && !res.value.2 ==>
            NoRaise(Outcomes(cfg, cat, tables, fetch))
            && res.value.1 == Streak(streak, Outcomes(cfg, cat, tables, fetch)) < MaxConsecutiveErrors)
  {
    var outcomes := Outcomes(cfg, cat, tables, fetch);
    if tables != [] {
      HitsLimitCons(streak, outcomes);
      var w := Window(cfg, cat, tables[0]);
      if w.Some? {
        var a := fetch(cat, tables[0], w.value.start, w.value.end);
        assert outcomes[0] == Ran(a);
        assert outcomes[1..] == Outcomes(cfg, cat, tables[1..], fetch);
        assert NoRaise(outcomes) <==> NoRaise(outcomes[1..]) by {
          assert forall i :: 0 < i < |outcomes| ==> outcomes[i] == outcomes[1..][i - 1];
        }
        if !(a.ServerError? && Track(streak, a) >= MaxConsecutiveErrors) {
          CategoryAbort(cfg, cat, tables[1..], fetch, Track(streak, a), Note(r.(ranges := r.ranges[tables[0] := w.value]), tables[0], a));
        }
      } else {
        assert outcomes[0] == Raised;
      }
    }
  }

  /** Rows stored by the successful outcomes. */
  function StoredSum(outcomes: seq<Outcome>): int {
    if outcomes == [] then 0
    else (if outcomes[0].Ran? && outcomes[0].a.Stored? then outcomes[0].a.n else 0) + StoredSum(outcomes[1..])
  }

  /** One table of a category that goes on: its window is computed, its call made and noted. */
  lemma CategoryStep(cfg: Settings, cat: string, tables: seq<string>, fetch: Fetch, streak: nat, r: CatResult)
      returns (a: Attempt, next: CatResult)
    requires tables != [] && CategoryLoop(cfg, cat, tables, fetch, streak, r).Some?
    requires !CategoryLoop(cfg, cat, tables, fetch, streak, r).value.2
    ensures TableOutcome(cfg, fetch, cat, tables[0]) == Ran(a)
    ensures multiset(next.success + next.failed) == multiset(r.success + r.failed) + multiset{tables[0]}
    ensures next.storedCount == r.storedCount + (if a.Stored? then a.n else 0)
    ensures next.tables == r.tables && next.skipped == r.skipped
    ensures CategoryLoop(cfg, cat, tables, fetch, streak, r) == CategoryLoop(cfg, cat, tables[1..], fetch, Track(streak, a), next)
    ensures !CategoryLoop(cfg, cat, tables[1..], fetch, Track(streak, a), next).value.2
  {
    var w := Window(cfg, cat, tables[0]).value;
    a := fetch(cat, tables[0], w.start, w.end);
    next := Note(r.(ranges := r.ranges[tables[0] := w]), tables[0], a);
    if a.Stored? {
      assert next.success + next.failed == r.success + [tables[0]] + r.failed;
    } else {
      assert next.success + next.failed == r.success + r.failed + [tables[0]];
    }
  }

  /**
   * A category that neither raises nor aborts puts each of its tables in
   * `success` or `failed`, and its stored count is what the successes stored.
   */
  lemma {:induction false} CategoryPartition(cfg: Settings, cat: string, tables: seq<string>, fetch: Fetch,
                                             streak: nat, r: CatResult)
    requires CategoryLoop(cfg, cat, tables, fetch, streak, r).Some?
    requires !CategoryLoop(cfg, cat, tables, fetch, streak, r).value.2
    ensures var r' := CategoryLoop(cfg, cat, tables, fetch, streak, r).value.0;
      && multiset(r'.success + r'.failed) == multiset(r.success + r.failed) + multiset(tables)
      && r'.storedCount == r.storedCount + StoredSum(Outcomes(cfg, cat, tables, fetch))
      && r'.tables == r.tables && r'.skipped == r.skipped
  {
    if tables != [] {
      var a, next := CategoryStep(cfg, cat, tables, fetch, streak, r);
      CategoryPartition(cfg, cat, tables[1..], fetch, Track(streak, a), next);
      var os := Outcomes(cfg, cat, tables, fetch);
      assert os[1..] == Outcomes(cfg, cat, tables[1..], fetch);
      assert multiset(tables) == multiset{tables[0]} + multiset(tables[1..]) by {
        assert tables == [tables[0]] + tables[1..];
      }
    }
  }

  /** A category that neither raises nor aborts records a window for each of its tables. */
  lemma {:induction false} CategoryKeys(cfg: Settings, cat: string, tables: seq<string>, fetch: Fetch,
                                        streak: nat, r: CatResult)
    requires CategoryLoop(cfg, cat, tables, fetch, streak, r).Some?
    requires !CategoryLoop(cfg, cat, tables, fetch, streak, r).value.2
    ensures var r' := CategoryLoop(cfg, cat, tables, fetch, streak, r).value.0;
      forall t :: t in r'.ranges <==> t in r.ranges || t in tables
  {
    if tables != [] {
      var w := Window(cfg, cat, tables[0]).value;
      var a := fetch(cat, tables[0], w.start, w.end);
      CategoryKeys(cfg, cat, tables[1..], fetch, Track(streak, a), Note(r.(ranges := r.ranges[tables[0] := w]), tables[0], a));
      assert forall t :: t in tables <==> t == tables[0] || t in tables[1..];
    }
  }

  /** Every window a category records, aborted or not, is its table's window. */
  lemma {:induction false} CategoryRanges(cfg: Settings, cat: string, tables: seq<string>, fetch: Fetch,
                                          streak: nat, r: CatResult)
    requires CategoryLoop(cfg, cat, tables, fetch, streak, r).Some?
    requires forall t :: t in r.ranges ==> Window(cfg, cat, t) == Some(r.ranges[t])
    ensures var r' := CategoryLoop(cfg, cat, tables, fetch, streak, r).value.0;
      forall t :: t in r'.ranges ==> Window(cfg, cat, t) == Some(r'.ranges[t])
  {
    if tables != [] {
      var w := Window(cfg, cat, tables[0]).value;
      var a := fetch(cat, tables[0], w.start, w.end);
      if !(a.ServerError? && Track(streak, a) >= MaxConsecutiveErrors) {
        CategoryRanges(cfg, cat, tables[1..], fetch, Track(streak, a), Note(r.(ranges := r.ranges[tables[0] := w]), tables[0], a));
      }
    }
  }

  /** The dry run records a window for exactly the listed tables, each the table's window with its lookback; None when one raised. */
  lemma {:induction false} DryRangesMeaning(cfg: Settings, cat: string, tables: seq<string>, acc: map<string, DateRange>)
    ensures DryRanges(cfg, cat, tables, acc).Some? <==> forall t :: t in tables ==> Window(cfg, cat, t).Some?
    ensures DryRanges(cfg, cat, tables, acc).Some? ==>
      var rs := DryRanges(cfg, cat, tables, acc).value;
      && (forall t :: t in rs <==> t in acc || t in tables)
      && (forall t :: t in tables ==>
            rs[t] == Window(cfg, cat, t).value.(lookback := Some(LookbackDays(t, cfg.lookbackOverride))))
      && (forall t :: t in acc && t !in tables ==> rs[t] == acc[t])
  {
    if tables != [] {
      var w := Window(cfg, cat, tables[0]);
      assert forall t :: t in tables <==> t == tables[0] || t in tables[1..];
      if w.Some? {
        DryRangesMeaning(cfg, cat, tables[1..], acc[tables[0] := WithLookback(cfg, tables[0], w.value)]);
      }
    }
  }

  /** A dry run raises exactly when some table's window raises. */
  lemma {:induction false} DryRunRaises(cfg: Settings, cats: seq<string>, daily: map<string, seq<string>>,
                                        fetch: Fetch, streak: nat, results: map<string, CatResult>)
    ensures DailyLoop(cfg, cats, daily, true, fetch, streak, results).Some?
        <==> forall c, t :: c in cats && t in TablesOf(daily, c) ==> Window(cfg, c, t).Some?
  {
    if cats != [] {
      var c := cats[0];
      var ts := TablesOf(daily, c);
      DryRangesMeaning(cfg, c, ts, map[]);
      assert forall x :: x in cats <==> x == c || x in cats[1..];
      var rs := DryRanges(cfg, c, ts, map[]);
      if rs.Some? {
        DryRunRaises(cfg, cats[1..], daily, fetch, streak, results[c := CatResult(ts, [], [], ts, 0, rs.value)]);
      }
    }
  }

  /**
   * A dry run that does not raise fetches nothing and never aborts: it lists
   * every table of every category as skipped, with its window and lookback.
   */
  lemma {:induction false} DryRunSkipsAll(cfg: Settings, cats: seq<string>, daily: map<string, seq<string>>,
                                          fetch: Fetch, streak: nat, results: map<string, CatResult>)
    requires DailyLoop(cfg, cats, daily, true, fetch, streak, results).Some?
    ensures var res := DailyLoop(cfg, cats, daily, true, fetch, streak, results).value;
      && !res.1
      && (forall c :: c in res.0 <==> c in results || c in cats)
      && (forall c :: c in cats ==> DrySkipped(cfg, c, TablesOf(daily, c), res.0[c]))
      && (forall c :: c in results && c !in cats ==> res.0[c] == results[c])
  {
    if cats != [] {
      var c := cats[0];
      var ts := TablesOf(daily, c);
      DryRangesMeaning(cfg, c, ts, map[]);
      var rs := DryRanges(cfg, c, ts, map[]).value;
      var results' := results[c := CatResult(ts, [], [], ts, 0, rs)];
      assert DrySkipped(cfg, c, ts, results'[c]);
      DryRunSkipsAll(cfg, cats[1..], daily, fetch, streak, results');
      assert forall x :: x in cats <==> x == c || x in cats[1..];
    }
  }

  /** A dry-run entry: nothing fetched, every table skipped with its window and lookback. */
  ghost predicate DrySkipped(cfg: Settings, c: string, ts: seq<string>, r: CatResult) {
    && r.tables == ts && r.success == [] && r.failed == [] && r.skipped == ts && r.storedCount == 0
    && (forall t :: t in r.ranges <==> t in ts)
    && (forall t :: t in ts ==>
          (Window(cfg, c, t).Some?
           && r.ranges[t] == Window(cfg, c, t).value.(lookback := Some(LookbackDays(t, cfg.lookbackOverride)))))
  }

  /** Every window a run records, dry or not, is its table's window (with the lookback in a dry run). */
  ghost predicate WindowsRecorded(cfg: Settings, results: map<string, CatResult>) {
    forall c, t :: c in results && t in results[c].ranges ==>
      Window(cfg, c, t) == Some(results[c].ranges[t].(lookback := None))
  }

  lemma {:induction false} RunWindows(cfg: Settings, cats: seq<string>, daily: map<string, seq<string>>, dryRun: bool,
                                      fetch: Fetch, streak: nat, results: map<string, CatResult>)
    requires WindowsRecorded(cfg, results)
    ensures var res := DailyLoop(cfg, cats, daily, dryRun, fetch, streak, results);
      res.Some? ==> WindowsRecorded(cfg, res.value.0)
  {
    if cats != [] {
      var c := cats[0];
      var ts := TablesOf(daily, c);
      if dryRun {
        DryRangesMeaning(cfg, c, ts, map[]);
        var rs := DryRanges(cfg, c, ts, map[]);
        if rs.Some? {
          RunWindows(cfg, cats[1..], daily, dryRun, fetch, streak, results[c := CatResult(ts, [], [], ts, 0, rs.value)]);
        }
      } else {
        var r0 := CatResult(ts, [], [], [], 0, map[]);
        var x := CategoryLoop(cfg, c, ts, fetch, streak, r0);
        if x.Some? {
          CategoryRanges(cfg, c, ts, fetch, streak, r0);
          RangesNoLookback(cfg, c, ts, fetch, streak, r0);
          if !x.value.2 {
            RunWindows(cfg, cats[1..], daily, dryRun, fetch, x.value.1, results[c := x.value.0]);
          }
        }
      }
    }
  }

  /** Windows recorded by a real run carry no lookback. */
  lemma RangesNoLookback(cfg: Settings, cat: string, tables: seq<string>, fetch: Fetch, streak: nat, r: CatResult)
    requires CategoryLoop(cfg, cat, tables, fetch, streak, r).Some?
    requires forall t :: t in r.ranges ==> Window(cfg, cat, t) == Some(r.ranges[t])
    requires var r' := CategoryLoop(cfg, cat, tables, fetch, streak, r).value.0;
      forall t :: t in r'.ranges ==> Window(cfg, cat, t) == Some(r'.ranges[t])
    ensures var r' := CategoryLoop(cfg, cat, tables, fetch, streak, r).value.0;
      forall t :: t in r'.ranges ==> Window(cfg, cat, t) == Some(r'.ranges[t].(lookback := None))
  {
    var r' := CategoryLoop(cfg, cat, tables, fetch, streak, r).value.0;
    forall t | t in r'.ranges
      ensures Window(cfg, cat, t) == Some(r'.ranges[t].(lookback := None))
    {
      assert r'.ranges[t].lookback.None?;
      assert r'.ranges[t].(lookback := None) == r'.ranges[t];
    }
  }

  /** Without `auto_range` every window is the end date alone, no last date is read, and nothing raises. */
  lemma FixedDateWindows(cfg: Settings, cats: seq<string>, daily: map<string, seq<string>>, dryRun: bool, fetch: Fetch)
    requires !cfg.autoRange
    ensures var res := DailyLoop(cfg, cats, daily, dryRun, fetch, 0, map[]);
      && res.Some?
      && forall c, t :: c in res.value.0 && t in res.value.0[c].ranges ==>
           var w := res.value.0[c].ranges[t]; w.start == cfg.end && w.end == cfg.end && w.last.None?
  {
    RunWindows(cfg, cats, daily, dryRun, fetch, 0, map[]);
    NeverRaises(cfg, cats, daily, dryRun, fetch, 0, map[]);
  }

  /**
   * Under `auto_range` each table's window runs from `calculate_start_date` of
   * its last stored date and lookback to the end date.
   */
  lemma IncrementalWindows(cfg: Settings, cats: seq<string>, daily: map<string, seq<string>>, dryRun: bool, fetch: Fetch)
    requires cfg.autoRange
    ensures var res := DailyLoop(cfg, cats, daily, dryRun, fetch, 0, map[]);
      res.Some? ==> forall c, t :: c in res.value.0 && t in res.value.0[c].ranges ==>
        var w := res.value.0[c].ranges[t];
        && w.last == cfg.lastDate(c, t) && w.end == cfg.end
        && CalculateStartDate(cfg.lastDate(c, t), LookbackDays(t, cfg.lookbackOverride), cfg.end) == Some(w.start)
  {
    RunWindows(cfg, cats, daily, dryRun, fetch, 0, map[]);
  }

  /** A run in which every table's window is computable never raises. */
  lemma {:induction false} NeverRaises(cfg: Settings, cats: seq<string>, daily: map<string, seq<string>>, dryRun: bool,
                                       fetch: Fetch, streak: nat, results: map<string, CatResult>)
    requires forall c, t :: c in cats && t in TablesOf(daily, c) ==> Window(cfg, c, t).Some?
    ensures DailyLoop(cfg, cats, daily, dryRun, fetch, streak, results).Some?
  {
    if cats != [] {
      var c := cats[0];
      var ts := TablesOf(daily, c);
      assert forall x :: x in cats[1..] ==> x in cats;
      if dryRun {
        DryRangesMeaning(cfg, c, ts, map[]);
        NeverRaises(cfg, cats[1..], daily, dryRun, fetch, streak, results[c := CatResult(ts, [], [], ts, 0, DryRanges(cfg, c, ts, map[]).value)]);
      } else {
        var r0 := CatResult(ts, [], [], [], 0, map[]);
        CategoryLoopSome(cfg, c, ts, fetch, streak, r0);
        var x := CategoryLoop(cfg, c, ts, fetch, streak, r0).value;
        if !x.2 {
          NeverRaises(cfg, cats[1..], daily, dryRun, fetch, x.1, results[c := x.0]);
        }
      }
    }
  }

  /** A category whose windows are all computable does not raise. */
  lemma {:induction false} CategoryLoopSome(cfg: Settings, cat: string, tables: seq<string>, fetch: Fetch, streak: nat, r: CatResult)
    requires forall t :: t in tables ==> Window(cfg, cat, t).Some?
    ensures CategoryLoop(cfg, cat, tables, fetch, streak, r).Some?
  {
    if tables != [] {
      var w := Window(cfg, cat, tables[0]).value;
      var a := fetch(cat, tables[0], w.start, w.end);
      assert forall t :: t in tables[1..] ==> t in tables;
      CategoryLoopSome(cfg, cat, tables[1..], fetch, Track(streak, a), Note(r.(ranges := r.ranges[tables[0] := w]), tables[0], a));
    }
  }

  /** A run raises only under `auto_range`, for a table whose `calculate_start_date` raises. */
  lemma RaisesOnBadDate(cfg: Settings, cats: seq<string>, daily: map<string, seq<string>>, dryRun: bool, fetch: Fetch)
    requires DailyLoop(cfg, cats, daily, dryRun, fetch, 0, map[]).None?
    ensures cfg.autoRange
    ensures exists c, t :: (c in cats && t in TablesOf(daily, c)
      && CalculateStartDate(cfg.lastDate(c, t), LookbackDays(t, cfg.lookbackOverride), cfg.end).None?)
  {
    if !(forall c, t :: c in cats && t in TablesOf(daily, c) ==> Window(cfg, c, t).Some?) {
      var c, t :| c in cats && t in TablesOf(daily, c) && Window(cfg, c, t).None?;
      assert cfg.autoRange;
    } else {
      NeverRaises(cfg, cats, daily, dryRun, fetch, 0, map[]);
    }
  }

  /** `sum(len(r['failed']) for r in results.values())` over the categories in order. */
  function FailedCount(cats: seq<string>, results: map<string, CatResult>): nat {
    if cats == [] then 0
    else (if cats[0] in results then |results[cats[0]].failed| else 0) + FailedCount(cats[1..], results)
  }

  /** The process exits with status 1 exactly when some category has a failed table. */
  function ExitStatus(cats: seq<string>, results: map<string, CatResult>): int {
    if FailedCount(cats, results) > 0 then 1 else 0
  }

  lemma {:induction false} ExitStatusIff(cats: seq<string>, results: map<string, CatResult>)
    ensures ExitStatus(cats, results) == 1 <==> exists c :: c in cats && c in results && results[c].failed != []
  {
    if cats != [] {
      ExitStatusIff(cats[1..], results);
      assert forall c :: c in cats ==> c == cats[0] || c in cats[1..];
    }
  }
}
