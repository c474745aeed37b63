/**
 * Planning helpers (src/tushare_duckdb/utils.py): the parameter grid of a
 * table's required parameters, the request parameters of one API call, the
 * calendar-day and quarter-end date lists, trade dates from `trade_cal`, and
 * table creation with its primary-key index.
 */
module Utils {
  import opened Common
  import opened Calendar
  import opened Db
  import opened Storage

  /** API request parameters (values as the strings the API receives). */
  type Params = map<string, string>

  // ---------------------------------------------------------------------------
  // Parameter grid (lines 125-130)
  // ---------------------------------------------------------------------------

  /** A `required_params` value: one value, or a list of values to iterate over. */
  datatype ParamValue = Scalar(value: string) | Choices(values: seq<string>)

  /** A non-list value counts as a one-element list. */
  function ValuesOf(v: ParamValue): seq<string> {
    match v
    case Scalar(x) => [x]
    case Choices(xs) => xs
  }

  /** The names of a `required_params` dict, which are distinct. */
  function Names(req: seq<(string, ParamValue)>): set<string> {
    if req == [] then {} else {req[0].0} + Names(req[1..])
  }

  predicate DistinctNames(req: seq<(string, ParamValue)>) {
    forall i, j :: 0 <= i < j < |req| ==> req[i].0 != req[j].0
  }

  /** The number of combinations: the product of the list lengths. */
  function Product(req: seq<(string, ParamValue)>): nat {
    if req == [] then 1 else |ValuesOf(req[0].1)| * Product(req[1..])
  }

  /** For each value in turn, every combination extended with `name` set to it. */
  function WithEach(name: string, values: seq<string>, combos: seq<Params>): (g: seq<Params>)
    ensures |g| == |values| * |combos|
  {
    if values == [] then []
    else
      var first := seq(|combos|, i requires 0 <= i < |combos| => combos[i][name := values[0]]);
      var rest := WithEach(name, values[1..], combos);
      assert |values| * |combos| == |combos| + (|values| - 1) * |combos|;
      first + rest
  }

  /** `generate_param_grid`: the cartesian product in `itertools.product` order, the last name varying fastest. */
  function ParamGrid(req: seq<(string, ParamValue)>): (g: seq<Params>)
    ensures |g| == Product(req)
  {
    if req == [] then [map[]]
    else WithEach(req[0].0, ValuesOf(req[0].1), ParamGrid(req[1..]))
  }

  lemma WithEachMember(name: string, values: seq<string>, combos: seq<Params>, c: Params)
    returns (v: string, d: Params)
    requires c in WithEach(name, values, combos)
    ensures v in values && d in combos && c == d[name := v]
    decreases |values|
  {
    var first := seq(|combos|, i requires 0 <= i < |combos| => combos[i][name := values[0]]);
    if c in first {
      var i :| 0 <= i < |combos| && first[i] == c;
      v, d := values[0], combos[i];
    } else {
      v, d := WithEachMember(name, values[1..], combos, c);
    }
  }

  lemma {:induction false} WithEachHas(name: string, values: seq<string>, combos: seq<Params>, v: string, d: Params)
    requires v in values && d in combos
    ensures d[name := v] in WithEach(name, values, combos)
    decreases |values|
  {
    var first := seq(|combos|, i requires 0 <= i < |combos| => combos[i][name := values[0]]);
    if v == values[0] {
      var i :| 0 <= i < |combos| && combos[i] == d;
      assert first[i] == d[name := v];
    } else {
      WithEachHas(name, values[1..], combos, v, d);
    }
  }

  /** Every combination names every required parameter, and only those, with one of its values. */
  lemma {:induction false} GridCombinations(req: seq<(string, ParamValue)>, c: Params)
    requires DistinctNames(req) && c in ParamGrid(req)
    ensures c.Keys == Names(req)
    ensures forall i :: 0 <= i < |req| ==> req[i].0 in c && c[req[i].0] in ValuesOf(req[i].1)
  {
    if req != [] {
      var v, d := WithEachMember(req[0].0, ValuesOf(req[0].1), ParamGrid(req[1..]), c);
      GridCombinations(req[1..], d);
      forall i | 0 < i < |req| ensures req[i].0 in c && c[req[i].0] in ValuesOf(req[i].1) {
        assert req[1..][i - 1] == req[i];
      }
    }
  }

  lemma {:induction false} NamesOfTail(req: seq<(string, ParamValue)>)
    requires req != [] && DistinctNames(req)
    ensures req[0].0 !in Names(req[1..])
  {
    NotInNames(req[1..], req[0].0);
  }

  lemma {:induction false} NotInNames(req: seq<(string, ParamValue)>, n: string)
    requires forall i :: 0 <= i < |req| ==> req[i].0 != n
    ensures n !in Names(req)
  {
    if req != [] {
      NotInNames(req[1..], n);
    }
  }

  /** Conversely, every choice of one value per required parameter is a combination of the grid. */
  lemma {:induction false} GridComplete(req: seq<(string, ParamValue)>, m: Params)
    requires DistinctNames(req)
    requires m.Keys == Names(req)
    requires forall i :: 0 <= i < |req| ==> req[i].0 in m && m[req[i].0] in ValuesOf(req[i].1)
    ensures m in ParamGrid(req)
  {
    if req == [] {
      assert m == map[];
    } else {
      var n := req[0].0;
      var d := m - {n};
      NamesOfTail(req);
      forall i | 0 <= i < |req[1..]| ensures req[1..][i].0 in d && d[req[1..][i].0] in ValuesOf(req[1..][i].1) {
        assert req[1..][i] == req[i + 1];
      }
      GridComplete(req[1..], d);
      WithEachHas(n, ValuesOf(req[0].1), ParamGrid(req[1..]), m[n], d);
      assert m == d[n := m[n]];
    }
  }

  /** No required parameters: one empty combination; an empty value list: no combination at all. */
  lemma GridEdges(req: seq<(string, ParamValue)>, i: nat)
    ensures req == [] ==> ParamGrid(req) == [map[]]
    ensures i < |req| && ValuesOf(req[i].1) == [] ==> ParamGrid(req) == []
  {
    if i < |req| && ValuesOf(req[i].1) == [] {
      ProductZero(req, i);
    }
  }

  lemma {:induction false} ProductZero(req: seq<(string, ParamValue)>, i: nat)
    requires i < |req| && ValuesOf(req[i].1) == []
    ensures Product(req) == 0
  {
    if i > 0 {
      assert req[1..][i - 1] == req[i];
      ProductZero(req[1..], i - 1);
    }
  }

  // ---------------------------------------------------------------------------
  // Request parameters (lines 132-189)
  // ---------------------------------------------------------------------------

  /** The parts of a table's configuration entry that the planning and dispatch code reads. */
  datatype ApiEntry = ApiEntry(
    apiTable: Option<string>,
    requiredParams: seq<(string, ParamValue)>,
    fixedParams: Params,
    dateParamMode: Option<string>,   // None when the key is absent
    requiresDate: Option<bool>,      // None when the key is absent
    dateParam: Option<string>,
    paramName: Option<string>,
    dateColumn: Option<string>,
    limit: Option<int>,
    uniqueKeys: seq<string>,
    store: Config)

  /** `config.get('date_param_mode', 'single')`. */
  function Mode(e: ApiEntry): string {
    if e.dateParamMode.Some? then e.dateParamMode.value else "single"
  }

  /** The single date key: `date_param or param_name or 'trade_date'`. */
  function DateKey(e: ApiEntry): string {
    if Truthy(e.dateParam) then e.dateParam.value
    else if Truthy(e.paramName) then e.paramName.value
    else "trade_date"
  }

  /** `format_date`: YYYYMMDD becomes YYYY-MM-DD only for that target format. */
  function FormatDate(target: Option<string>, d: string): string {
    if !Truthy(target) || d == "" then d
    else if target.value == "YYYY-MM-DD" && '-' !in d && |d| == 8 then d[..4] + "-" + d[4..6] + "-" + d[6..]
    else d
  }

  function Undash(s: string): (r: string)
    ensures |r| <= |s|
  {
    if s == [] then [] else (if s[0] == '-' then [] else [s[0]]) + Undash(s[1..])
  }

  lemma {:induction false} UndashPlain(s: string)
    requires '-' !in s
    ensures Undash(s) == s
  {
    if s != [] {
      UndashPlain(s[1..]);
    }
  }

  lemma {:induction false} UndashAppend(a: string, b: string)
    ensures Undash(a + b) == Undash(a) + Undash(b)
  {
    if a == [] {
      assert a + b == b;
    } else {
      assert (a + b)[1..] == a[1..] + b;
      UndashAppend(a[1..], b);
    }
  }

  /**
   * Reformatting applies only to 8-character strings without a dash and only
   * inserts the two dashes: removing them gives the input back. Anything else
   * passes through unchanged.
   */
  lemma FormatDateRoundTrip(target: Option<string>, d: string)
    ensures var f := FormatDate(target, d);
      if Truthy(target) && target.value == "YYYY-MM-DD" && '-' !in d && |d| == 8
      then |f| == 10 && f[4] == '-' && f[7] == '-' && Undash(f) == d
      else f == d
  {
    if Truthy(target) && target.value == "YYYY-MM-DD" && '-' !in d && |d| == 8 {
      var a, b, c := d[..4], d[4..6], d[6..];
      assert '-' !in a && '-' !in b && '-' !in c && d == a + b + c by {
        assert forall x :: x in a || x in b || x in c ==> x in d;
      }
      UndashDashed(a, b, c);
    }
  }

  lemma UndashDashed(a: string, b: string, c: string)
    requires '-' !in a && '-' !in b && '-' !in c
    ensures Undash(a + "-" + b + "-" + c) == a + b + c
  {
    var ad := a + "-";
    var adb := ad + b;
    var adbd := adb + "-";
    assert Undash("-") == [];
    UndashPlain(a);
    UndashPlain(b);
    UndashPlain(c);
    UndashAppend(a, "-");
    assert Undash(ad) == a;
    UndashAppend(ad, b);
    assert Undash(adb) == a + b;
    UndashAppend(adb, "-");
    assert Undash(adbd) == a + b;
    UndashAppend(adbd, c);
  }

  /** The tables whose API expects `ts_code` where the grid says `ts_codes`. */
  const RenameTsCodes: set<string> := {"fut_index_daily", "index_daily", "index_dailybasic"}

  /** The parameters after the date keys of lines 161-174. */
  function WithDateKeys(p: Params, e: ApiEntry, start: string, end: string): Params {
    if e.requiresDate == Some(false) then p
    else if Mode(e) == "range" then
      p["start_date" := FormatDate(e.store.apiDateFormat, start)]["end_date" := FormatDate(e.store.apiDateFormat, end)]
    else
      p[DateKey(e) := FormatDate(e.store.apiDateFormat, if start != end then end else start)]
  }

  /** `build_api_params`: the extra parameters, the date keys, the `ts_code` fix-ups, without `config`. */
  function BuildApiParams(table: string, start: string, end: string, tsCode: Option<string>,
                          extra: Params, e: ApiEntry): (p: Params)
    ensures "config" !in p
  {
    var p1 := WithDateKeys(extra, e, start, end);
    var p2 := if table in RenameTsCodes && "ts_codes" in p1 then (p1 - {"ts_codes"})["ts_code" := p1["ts_codes"]] else p1;
    var p3 := if Truthy(tsCode) && "ts_code" !in p2 then p2["ts_code" := tsCode.value] else p2;
    p3 - {"config"}
  }

  /**
   * The date keys: `start_date`/`end_date` in range mode; otherwise one key,
   * named `date_param`, else `param_name`, else `trade_date`, set to the end
   * date; and none at all only when `requires_date` is exactly False.
   */
  lemma BuildDateKeys(table: string, start: string, end: string, tsCode: Option<string>, extra: Params, e: ApiEntry)
    ensures var p := BuildApiParams(table, start, end, tsCode, extra, e);
      var fmt := e.store.apiDateFormat;
      && (e.requiresDate != Some(false) && Mode(e) == "range" ==>
            p["start_date"] == FormatDate(fmt, start) && p["end_date"] == FormatDate(fmt, end))
      && (e.requiresDate != Some(false) && Mode(e) != "range" && DateKey(e) !in {"ts_code", "ts_codes", "config"} ==>
            DateKey(e) in p && p[DateKey(e)] == FormatDate(fmt, end))
      && (e.requiresDate == Some(false) ==>
            forall k :: k in p ==> k in extra || k == "ts_code")
  {
  }

  /**
   * `ts_codes` becomes `ts_code` only for the three index tables; the `ts_code`
   * argument fills in `ts_code` but never overrides one already present.
   */
  lemma BuildTsCode(table: string, start: string, end: string, tsCode: Option<string>, extra: Params, e: ApiEntry)
    requires e.requiresDate == Some(false) || Mode(e) == "range" || DateKey(e) !in {"ts_code", "ts_codes"}
    ensures var p := BuildApiParams(table, start, end, tsCode, extra, e);
      && (table in RenameTsCodes && "ts_codes" in extra ==> "ts_codes" !in p && p["ts_code"] == extra["ts_codes"])
      && (table !in RenameTsCodes && "ts_codes" in extra ==> p["ts_codes"] == extra["ts_codes"])
      && ("ts_code" in extra && !(table in RenameTsCodes && "ts_codes" in extra) ==> p["ts_code"] == extra["ts_code"])
      && ("ts_code" !in extra && "ts_codes" !in extra && Truthy(tsCode) ==> p["ts_code"] == tsCode.value)
  {
  }

  // ---------------------------------------------------------------------------
  // Calendar days (lines 38-50)
  // ---------------------------------------------------------------------------

  /** The formatted days from `d` to `e` inclusive. */
  function DaysFrom(d: Ymd, e: Ymd): (r: seq<string>)
    requires Valid(d) && d.year >= 1 && InRange(e)
    decreases e.year - d.year, 12 - d.month, 31 - d.day
  {
    if Before(e, d) then [] else [Format(d)] + DaysFrom(Next(d), e)
  }

  /** `get_all_dates`: every calendar day from start to end inclusive; [] for a malformed date. */
  function AllDates(start: string, end: string): seq<string> {
    match (Parse(start), Parse(end))
    case (Some(s), Some(e)) => DaysFrom(s, e)
    case _ => []
  }

  /** The `while current_dt <= end_dt` loop. */
  method GetAllDates(start: string, end: string) returns (dates: seq<string>)
    ensures dates == AllDates(start, end)
  {
    var s := Parse(start);
    var e := Parse(end);
    if s.None? || e.None? {
      return [];
    }
    dates := [];
    var current := s.value;
    while !Before(e.value, current)
      invariant Valid(current) && current.year >= 1
      invariant AllDates(start, end) == dates + DaysFrom(current, e.value)
      decreases e.value.year - current.year, 12 - current.month, 31 - current.day
    {
      assert dates + DaysFrom(current, e.value) == (dates + [Format(current)]) + DaysFrom(Next(current), e.value);
      dates := dates + [Format(current)];
      current := Next(current);
    }
    assert dates + [] == dates;
  }

  /** The list holds exactly the date strings of the days from `d` to `e`. */
  lemma {:induction false} DaysFromMembers(d: Ymd, e: Ymd, x: string)
    requires Valid(d) && d.year >= 1 && InRange(e)
    ensures x in DaysFrom(d, e) <==> IsDateString(x) && NotAfter(d, Parse(x).value) && NotAfter(Parse(x).value, e)
    decreases e.year - d.year, 12 - d.month, 31 - d.day
  {
    if !Before(e, d) {
      DaysFromMembers(Next(d), e, x);
      assert InRange(d);
      ParseFormat(d);
      if IsDateString(x) {
        var y := Parse(x).value;
        FormatParse(x);
        if NotAfter(d, y) && y != d {
          NextIsSuccessor(d, y);
        }
        if NotAfter(Next(d), y) && NotAfter(y, e) {
          assert Before(d, y);
        }
      }
    }
  }

  /** A string below every element of an ascending list, put in front of it, keeps it ascending. */
  lemma ConsAscending(x: string, rest: seq<string>)
    requires forall j :: 0 <= j < |rest| ==> StrLt(x, rest[j])
    requires StrictlyAscending(rest)
    ensures StrictlyAscending([x] + rest)
  {
    var r := [x] + rest;
    forall i, j | 0 <= i < j < |r| ensures StrLt(r[i], r[j]) {
      assert r[j] == rest[j - 1];
      if i > 0 {
        assert r[i] == rest[i - 1];
      }
    }
  }

  /** A day formats below every date string that parses to a later day. */
  lemma FormatBelow(d: Ymd, x: string)
    requires InRange(d) && IsDateString(x) && Before(d, Parse(x).value)
    ensures StrLt(Format(d), x)
  {
    FormatParse(x);
    FormatOrder(d, Parse(x).value);
  }

  /** Strictly ascending as strings: each day formats after the one before. */
  lemma {:induction false} DaysFromAscending(d: Ymd, e: Ymd)
    requires Valid(d) && d.year >= 1 && InRange(e)
    ensures StrictlyAscending(DaysFrom(d, e))
    decreases e.year - d.year, 12 - d.month, 31 - d.day
  {
    if !Before(e, d) {
      var rest := DaysFrom(Next(d), e);
      DaysFromAscending(Next(d), e);
      forall j | 0 <= j < |rest| ensures StrLt(Format(d), rest[j]) {
        assert rest[j] in rest;
        DaysFromMembers(Next(d), e, rest[j]);
        FormatBelow(d, rest[j]);
      }
      ConsAscending(Format(d), rest);
    }
  }

  /** Empty exactly when the end is before the start; otherwise it runs from the start to the end. */
  lemma {:induction false} DaysFromEnds(d: Ymd, e: Ymd)
    requires Valid(d) && d.year >= 1 && InRange(e)
    ensures var r := DaysFrom(d, e);
      (r == [] <==> Before(e, d)) && (r != [] ==> r[0] == Format(d) && r[|r| - 1] == Format(e))
    decreases e.year - d.year, 12 - d.month, 31 - d.day
  {
    if !Before(e, d) {
      if Before(e, Next(d)) {
        if d != e {
          NextIsSuccessor(d, e);
        }
      } else {
        DaysFromEnds(Next(d), e);
      }
    }
  }

  /** `get_all_dates` on two well-formed dates: empty exactly when end < start, else from start to end, ascending, every day once. */
  lemma AllDatesSpan(start: string, end: string, x: string)
    requires IsDateString(start) && IsDateString(end)
    ensures var r := AllDates(start, end);
      var s, e := Parse(start).value, Parse(end).value;
      && (r == [] <==> StrLt(end, start))
      && (r != [] ==> r[0] == start && r[|r| - 1] == end)
      && StrictlyAscending(r)
      && (x in r <==> IsDateString(x) && NotAfter(s, Parse(x).value) && NotAfter(Parse(x).value, e))
  {
    var s, e := Parse(start).value, Parse(end).value;
    DaysFromEnds(s, e);
    DaysFromAscending(s, e);
    DaysFromMembers(s, e, x);
    FormatParse(start);
    FormatParse(end);
    FormatOrder(e, s);
  }

  /** A malformed start or end gives the empty list. */
  lemma AllDatesMalformed(start: string, end: string)
    requires !IsDateString(start) || !IsDateString(end)
    ensures AllDates(start, end) == []
  {
  }

  // ---------------------------------------------------------------------------
  // Quarter ends (lines 68-122)
  // ---------------------------------------------------------------------------

  /** The last month of the quarter holding month `m`. */
  function QuarterMonth(m: int): int {
    if m <= 3 then 3 else if m <= 6 then 6 else if m <= 9 then 9 else 12
  }

  /** The end of the quarter holding `d` (`calendar.monthrange` gives the last day). */
  function QuarterEnd(d: Ymd): (q: Ymd)
    requires Valid(d)
    ensures Valid(q) && NotAfter(d, q)
  {
    var m := QuarterMonth(d.month);
    Ymd(d.year, m, DaysInMonth(d.year, m))
  }

  /** 31 March, 30 June, 30 September or 31 December. */
  predicate IsQuarterEnd(d: Ymd) {
    (d.month == 3 && d.day == 31) || (d.month == 6 && d.day == 30)
    || (d.month == 9 && d.day == 30) || (d.month == 12 && d.day == 31)
  }

  /** The quarter ends the loop collects from `cur` on. */
  function QuarterEnds(cur: Ymd, e: Ymd): seq<string>
    requires Valid(cur) && cur.year >= 1 && InRange(e)
    decreases e.year - cur.year, 12 - cur.month, 31 - cur.day
  {
    if Before(e, cur) then []
    else
      var q := QuarterEnd(cur);
      (if NotAfter(cur, q) && NotAfter(q, e) then [Format(q)] else []) + QuarterEnds(Next(q), e)
  }

  /** `get_quarterly_dates`: [] for a malformed date. */
  function QuarterlyDates(start: string, end: string): seq<string> {
    match (Parse(start), Parse(end))
    case (Some(s), Some(e)) => QuarterEnds(s, e)
    case _ => []
  }

  /** The `while current <= end_dt` loop, which jumps from one quarter end to the day after. */
  method GetQuarterlyDates(start: string, end: string) returns (quarters: seq<string>)
    ensures quarters == QuarterlyDates(start, end)
  {
    var s := Parse(start);
    var e := Parse(end);
    if s.None? || e.None? {
      return [];
    }
    quarters := [];
    var current := s.value;
    while !Before(e.value, current)
      invariant Valid(current) && current.year >= 1
      invariant QuarterlyDates(start, end) == quarters + QuarterEnds(current, e.value)
      decreases e.value.year - current.year, 12 - current.month, 31 - current.day
    {
      var q := QuarterEnd(current);
      var found := if NotAfter(current, q) && NotAfter(q, e.value) then [Format(q)] else [];
      QuarterStep(current, e.value, quarters);
      quarters := quarters + found;
      ghost var prev := current;
      current := Next(q);
      assert Before(prev, current);
    }
    assert quarters + [] == quarters;
  }

  lemma QuarterStep(cur: Ymd, e: Ymd, before: seq<string>)
    requires Valid(cur) && cur.year >= 1 && InRange(e) && !Before(e, cur)
    ensures var q := QuarterEnd(cur);
      var found := if NotAfter(cur, q) && NotAfter(q, e) then [Format(q)] else [];
      before + QuarterEnds(cur, e) == (before + found) + QuarterEnds(Next(q), e)
  {
  }

  lemma QuarterEndIsQuarterEnd(d: Ymd)
    requires Valid(d)
    ensures IsQuarterEnd(QuarterEnd(d))
  {
  }

  /** No quarter end lies between a day and the end of its quarter. */
  lemma QuarterEndFirst(d: Ymd, x: Ymd)
    requires Valid(d) && Valid(x) && IsQuarterEnd(x) && NotAfter(d, x)
    ensures NotAfter(QuarterEnd(d), x)
  {
  }

  /** The list holds exactly the quarter ends from `cur` to `e`. */
  lemma QuarterEndsMembers(cur: Ymd, e: Ymd, x: string)
    requires Valid(cur) && cur.year >= 1 && InRange(e)
    ensures x in QuarterEnds(cur, e) <==>
      IsDateString(x) && IsQuarterEnd(Parse(x).value) && NotAfter(cur, Parse(x).value) && NotAfter(Parse(x).value, e)
  {
    if x in QuarterEnds(cur, e) {
      QuarterEndsSound(cur, e, x);
    }
    if IsDateString(x) && IsQuarterEnd(Parse(x).value) && NotAfter(cur, Parse(x).value) && NotAfter(Parse(x).value, e) {
      QuarterEndsComplete(cur, e, Parse(x).value);
      FormatParse(x);
    }
  }

  lemma {:induction false} QuarterEndsSound(cur: Ymd, e: Ymd, x: string)
    requires Valid(cur) && cur.year >= 1 && InRange(e)
    requires x in QuarterEnds(cur, e)
    ensures IsDateString(x) && IsQuarterEnd(Parse(x).value) && NotAfter(cur, Parse(x).value) && NotAfter(Parse(x).value, e)
    decreases e.year - cur.year, 12 - cur.month, 31 - cur.day
  {
    var q := QuarterEnd(cur);
    if NotAfter(cur, q) && NotAfter(q, e) && x == Format(q) {
      assert InRange(q);
      ParseFormat(q);
    } else {
      assert x in QuarterEnds(Next(q), e);
      QuarterEndsSound(Next(q), e, x);
      var y := Parse(x).value;
      assert NotAfter(cur, y) by {
        if cur != q { BeforeTrans(cur, q, Next(q)); }
        if Next(q) != y { BeforeTrans(cur, Next(q), y); }
      }
    }
  }

  lemma {:induction false} QuarterEndsComplete(cur: Ymd, e: Ymd, y: Ymd)
    requires Valid(cur) && cur.year >= 1 && InRange(e)
    requires InRange(y) && IsQuarterEnd(y) && NotAfter(cur, y) && NotAfter(y, e)
    ensures Format(y) in QuarterEnds(cur, e)
    decreases e.year - cur.year, 12 - cur.month, 31 - cur.day
  {
    var q := QuarterEnd(cur);
    QuarterEndFirst(cur, y);
    if y != q {
      NextIsSuccessor(q, y);
      QuarterEndsComplete(Next(q), e, y);
    }
  }

  /** Strictly ascending: each quarter end found comes after the ones before. */
  lemma {:induction false} QuarterEndsAscending(cur: Ymd, e: Ymd)
    requires Valid(cur) && cur.year >= 1 && InRange(e)
    ensures StrictlyAscending(QuarterEnds(cur, e))
    decreases e.year - cur.year, 12 - cur.month, 31 - cur.day
  {
    if !Before(e, cur) {
      var q := QuarterEnd(cur);
      var rest := QuarterEnds(Next(q), e);
      QuarterEndsAscending(Next(q), e);
      if NotAfter(cur, q) && NotAfter(q, e) {
        assert QuarterEnds(cur, e) == [Format(q)] + rest;
        forall j | 0 <= j < |rest| ensures StrLt(Format(q), rest[j]) {
          assert rest[j] in rest;
          QuarterEndsMembers(Next(q), e, rest[j]);
          FormatBelow(q, rest[j]);
        }
        ConsAscending(Format(q), rest);
      } else {
        assert QuarterEnds(cur, e) == rest;
      }
    }
  }

  /** `get_quarterly_dates`: exactly the 0331/0630/0930/1231 dates in [start, end], ascending. */
  lemma QuarterlyDatesExact(start: string, end: string, x: string)
    requires IsDateString(start) && IsDateString(end)
    ensures var r := QuarterlyDates(start, end);
      && (x in r <==> IsDateString(x) && IsQuarterEnd(Parse(x).value)
                      && NotAfter(Parse(start).value, Parse(x).value) && NotAfter(Parse(x).value, Parse(end).value))
      && StrictlyAscending(r)
  {
    QuarterEndsMembers(Parse(start).value, Parse(end).value, x);
    QuarterEndsAscending(Parse(start).value, Parse(end).value);
  }

  // ---------------------------------------------------------------------------
  // Trade dates (lines 60-65)
  // ---------------------------------------------------------------------------

  /** A `trade_cal` row the query selects. */
  predicate OpenDay(r: Row, start: string, end: string, exchange: string) {
    Get(r, "cal_date").Some? && StrLe(start, Get(r, "cal_date").value) && StrLe(Get(r, "cal_date").value, end)
    && Get(r, "exchange") == Some(exchange) && Get(r, "is_open") == Some("1")
  }

  function CalDates(rows: Frame, start: string, end: string, exchange: string): (ds: seq<string>)
    ensures forall v :: v in ds <==> exists r :: r in rows && OpenDay(r, start, end, exchange) && Get(r, "cal_date") == Some(v)
  {
    if rows == [] then []
    else
      var rest := CalDates(rows[1..], start, end, exchange);
      assert forall r :: r in rows <==> r == rows[0] || r in rows[1..];
      if OpenDay(rows[0], start, end, exchange) then [Get(rows[0], "cal_date").value] + rest else rest
  }

  /** `_query_trade_dates`: the open days of the exchange in [start, end], ordered by date. */
  function TradeDates(tables: map<string, Table>, start: string, end: string, exchange: string): seq<string> {
    if "trade_cal" !in tables then []
    else Sort(CalDates(tables["trade_cal"].rows, start, end, exchange))
  }

  /** No `trade_cal` table: no dates; otherwise exactly the selected days, ascending. */
  lemma TradeDatesExact(tables: map<string, Table>, start: string, end: string, exchange: string, v: string)
    ensures var ds := TradeDates(tables, start, end, exchange);
      && ("trade_cal" !in tables ==> ds == [])
      && SortedStrs(ds)
      && ("trade_cal" in tables ==>
            (v in ds <==> exists r :: r in tables["trade_cal"].rows && OpenDay(r, start, end, exchange) && Get(r, "cal_date") == Some(v)))
  {
    if "trade_cal" in tables {
      var raw := CalDates(tables["trade_cal"].rows, start, end, exchange);
      assert v in Sort(raw) <==> v in multiset(Sort(raw));
      assert v in raw <==> v in multiset(raw);
    }
  }

  // ---------------------------------------------------------------------------
  // Table creation (lines 203-245)
  // ---------------------------------------------------------------------------

  /** A table's entry in `TABLE_SCHEMAS`: its CREATE TABLE text, and the columns and primary key it declares. */
  datatype Schema = Schema(sql: string, columns: seq<string>, primaryKey: seq<string>)

  function UpperChar(c: char): char {
    if 'a' <= c <= 'z' then (c as int - 32) as char else c
  }

  /** `str.upper()` on ASCII letters. */
  function Upper(s: string): (u: string)
    ensures |u| == |s| && forall i :: 0 <= i < |s| ==> u[i] == UpperChar(s[i])
  {
    seq(|s|, i requires 0 <= i < |s| => UpperChar(s[i]))
  }

  /** `pat` occurs in `s` at `i`. */
  predicate MatchAt(s: string, pat: string, i: int) {
    0 <= i && i + |pat| <= |s| && s[i..i + |pat|] == pat
  }

  /** `s.find(pat, from)`: the first occurrence at or after `from`, or -1. */
  function Find(s: string, pat: string, from: nat): (r: int)
    ensures r == -1 || (from <= r && MatchAt(s, pat, r))
    ensures r == -1 ==> forall i :: from <= i ==> !MatchAt(s, pat, i)
    ensures r >= 0 ==> forall i :: from <= i < r ==> !MatchAt(s, pat, i)
    decreases |s| - from
  {
    if from + |pat| > |s| then -1
    else if s[from..from + |pat|] == pat then from
    else Find(s, pat, from + 1)
  }

  /** `s.replace(' ', '')`. */
  function RemoveSpaces(s: string): (r: string)
    ensures ' ' !in r && |r| <= |s|
  {
    if s == [] then [] else (if s[0] == ' ' then [] else [s[0]]) + RemoveSpaces(s[1..])
  }

  /** Regular-expression `\s`. */
  predicate Space(c: char) {
    c == ' ' || c == '\t' || c == '\n' || c == '\r' || c as int == 11 || c as int == 12
  }

  /** `s.lstrip()` over ASCII whitespace. */
  function StripStart(s: string): (r: string)
    ensures |r| <= |s| && r == s[|s| - |r|..]
    ensures r == [] || !Space(r[0])
    ensures forall k :: 0 <= k < |s| - |r| ==> Space(s[k])
  {
    if s != [] && Space(s[0]) then StripStart(s[1..]) else s
  }

  /** `s.rstrip()` over ASCII whitespace. */
  function StripEnd(s: string): (r: string)
    ensures |r| <= |s| && r == s[..|r|]
    ensures r == [] || !Space(r[|r| - 1])
    ensures forall k :: |r| <= k < |s| ==> Space(s[k])
  {
    if s != [] && Space(s[|s| - 1]) then StripEnd(s[..|s| - 1]) else s
  }

  /** `s.strip()` over ASCII whitespace: the longest infix without whitespace at either end. */
  function Strip(s: string): (r: string)
    ensures r == [] || (!Space(r[0]) && !Space(r[|r| - 1]))
  {
    StripEnd(StripStart(s))
  }

  /** Stripping changes nothing in a string without whitespace at either end. */
  lemma StripTrimmed(s: string)
    requires s == [] || (!Space(s[0]) && !Space(s[|s| - 1]))
    ensures Strip(s) == s
  {
  }

  /** Stripping removes only whitespace: what it drops from either end is all whitespace. */
  lemma StripInfix(s: string)
    ensures var i := |s| - |StripStart(s)|; var j := i + |Strip(s)|;
      && 0 <= i <= j <= |s| && Strip(s) == s[i..j]
      && (forall k :: 0 <= k < i ==> Space(s[k])) && (forall k :: j <= k < |s| ==> Space(s[k]))
  {
    var a := StripStart(s);
    var r := StripEnd(a);
    assert Strip(s) == r;
    TrimmedInfix(s, a, r);
  }

  /** A prefix `r` of a suffix `a` of `s`, with only whitespace cut on either side. */
  lemma TrimmedInfix(s: string, a: string, r: string)
    requires |a| <= |s| && a == s[|s| - |a|..] && |r| <= |a| && r == a[..|r|]
    requires forall k :: |r| <= k < |a| ==> Space(a[k])
    ensures r == s[|s| - |a|..|s| - |a| + |r|]
    ensures forall k :: |s| - |a| + |r| <= k < |s| ==> Space(s[k])
  {
    var i := |s| - |a|;
    forall k | i + |r| <= k < |s|
      ensures Space(s[k])
    {
      assert s[k] == a[k - i];
    }
  }

  /** Regular-expression class `[^\s,\)]`. */
  predicate KeyChar(c: char) {
    !Space(c) && c != ',' && c != ')'
  }

  function SpacesEnd(s: string, i: nat): (k: nat)
    requires i <= |s|
    ensures i <= k <= |s| && (k < |s| ==> !Space(s[k]))
    decreases |s| - i
  {
    if i < |s| && Space(s[i]) then SpacesEnd(s, i + 1) else i
  }

  function KeyRun(s: string, i: nat): (n: nat)
    requires i <= |s|
    ensures i + n <= |s| && forall k :: i <= k < i + n ==> KeyChar(s[k])
    decreases |s| - i
  {
    if i < |s| && KeyChar(s[i]) then 1 + KeyRun(s, i + 1) else 0
  }

  /** `PRIMARY KEY\s+\(?([^\s,\)]+)` tried where `PRIMARY KEY` starts at `i`, with the regex engine's backtracking. */
  function KeyAt(up: string, i: nat): Option<string>
    requires i + 11 <= |up|
  {
    var k := SpacesEnd(up, i + 11);
    if k == i + 11 || k == |up| then None
    else if up[k] == '(' && k + 1 < |up| && KeyChar(up[k + 1]) then Some(up[k + 1..k + 1 + KeyRun(up, k + 1)])
    else if KeyChar(up[k]) then Some(up[k..k + KeyRun(up, k)])
    else None
  }

  /** `re.search`: the first occurrence of `PRIMARY KEY` at which the pattern matches. */
  function KeySearch(up: string, from: nat): Option<string>
    decreases |up| - from
  {
    var i := Find(up, "PRIMARY KEY", from);
    if i == -1 then None
    else match KeyAt(up, i)
      case Some(c) => Some(c)
      case None => KeySearch(up, i + 1)
  }

  /** The column list of the unique index `init_table` creates, or None when it creates none. */
  function PkColumns(sql: string): Option<string> {
    var up := Upper(sql);
    if Find(up, "PRIMARY KEY", 0) == -1 then None
    else
      var p := Find(up, "PRIMARY KEY (", 0);
      if p == -1 then KeySearch(up, 0)
      else
        var st := p + 13;
        var en := Find(up, ")", st);
        ColumnList(sql[st..if en == -1 then |up| else en])
  }

  /** A column list with its spaces removed; `None` when nothing is left. */
  function ColumnList(text: string): Option<string> {
    var cols := RemoveSpaces(text);
    if |cols| == 0 then None else Some(cols)
  }

  lemma UpperSlice(s: string, i: nat, j: nat)
    requires i <= j <= |s|
    ensures Upper(s)[i..j] == Upper(s[i..j])
  {
  }

  lemma UpperKeywords()
    ensures Upper("PRIMARY KEY (") == "PRIMARY KEY ("
    ensures Upper(")") == ")"
  {
  }

  /** The composite form is also an occurrence of `PRIMARY KEY`, followed by a space. */
  lemma CompositeIsKey(up: string, j: int)
    ensures MatchAt(up, "PRIMARY KEY (", j) ==> MatchAt(up, "PRIMARY KEY", j) && up[j + 11] == ' '
  {
    if MatchAt(up, "PRIMARY KEY (", j) {
      assert up[j..j + 13][..11] == up[j..j + 11];
      assert up[j..j + 13][11] == up[j + 11];
    }
  }

  lemma CompositeAt(sql: string, k: nat)
    requires k + 13 <= |sql| && sql[k..k + 13] == "PRIMARY KEY ("
    ensures MatchAt(Upper(sql), "PRIMARY KEY (", k)
  {
    UpperSlice(sql, k, k + 13);
    UpperKeywords();
  }

  /** `find(')')` from the start of a list without `)` stops at the `)` closing it. */
  lemma CloseParen(sql: string, st: nat, cols: string)
    requires st + |cols| < |sql| && sql[st..st + |cols|] == cols && sql[st + |cols|] == ')'
    requires ')' !in cols
    ensures Find(Upper(sql), ")", st) == st + |cols|
  {
    var up := Upper(sql);
    forall i | st <= i < st + |cols| ensures !MatchAt(up, ")", i) {
      assert sql[i] == cols[i - st];
      assert cols[i - st] in cols;
      assert up[i..i + 1][0] == up[i] == UpperChar(sql[i]);
    }
    assert up[st + |cols|..st + |cols| + 1] == [up[st + |cols|]];
    assert MatchAt(up, ")", st + |cols|);
  }

  /**
   * A table-level `PRIMARY KEY (a, b)`: the index is built over the
   * parenthesised column list with the spaces removed.
   */
  lemma CompositeKey(sql: string, pre: string, cols: string, post: string)
    requires sql == pre + "PRIMARY KEY (" + cols + ")" + post
    requires forall i :: 0 <= i < |pre| ==> !MatchAt(Upper(sql), "PRIMARY KEY (", i)
    requires ')' !in cols
    ensures PkColumns(sql) == ColumnList(cols)
  {
    ColumnsSlice(sql, pre, cols, post);
    CompositeAt(sql, |pre|);
    CompositeKeyAt(sql, |pre|, cols);
  }

  /** `pk_columns` when the first composite occurrence is at `k`, followed by `cols` and `)`. */
  lemma CompositeKeyAt(sql: string, k: nat, cols: string)
    requires MatchAt(Upper(sql), "PRIMARY KEY (", k)
    requires forall i :: 0 <= i < k ==> !MatchAt(Upper(sql), "PRIMARY KEY (", i)
    requires k + 13 + |cols| < |sql| && sql[k + 13..k + 13 + |cols|] == cols && sql[k + 13 + |cols|] == ')'
    requires ')' !in cols
    ensures PkColumns(sql) == ColumnList(cols)
  {
    CompositeFinds(sql, k, cols);
    ColumnsAt(sql, k + 13, cols);
  }

  lemma ColumnsAt(sql: string, st: nat, cols: string)
    requires 13 <= st && st + |cols| <= |sql| && sql[st..st + |cols|] == cols
    requires Find(Upper(sql), "PRIMARY KEY", 0) != -1 && Find(Upper(sql), "PRIMARY KEY (", 0) == st - 13
    requires Find(Upper(sql), ")", st) == st + |cols|
    ensures PkColumns(sql) == ColumnList(cols)
  {
    PkColumnsBetween(sql, st, st + |cols|);
  }

  /** Where the finds of `pk_columns` land when the first composite occurrence is at `k`. */
  lemma CompositeFinds(sql: string, k: nat, cols: string)
    requires MatchAt(Upper(sql), "PRIMARY KEY (", k)
    requires forall i :: 0 <= i < k ==> !MatchAt(Upper(sql), "PRIMARY KEY (", i)
    requires k + 13 + |cols| < |sql| && sql[k + 13..k + 13 + |cols|] == cols && sql[k + 13 + |cols|] == ')'
    requires ')' !in cols
    ensures Find(Upper(sql), "PRIMARY KEY", 0) != -1 && Find(Upper(sql), "PRIMARY KEY (", 0) == k
    ensures Find(Upper(sql), ")", k + 13) == k + 13 + |cols|
  {
    var up := Upper(sql);
    CompositeIsKey(up, k);
    FindAt(up, "PRIMARY KEY", k);
    FindFirst(up, "PRIMARY KEY (", k);
    CloseParen(sql, k + 13, cols);
  }

  lemma ColumnsSlice(sql: string, pre: string, cols: string, post: string)
    requires sql == pre + "PRIMARY KEY (" + cols + ")" + post
    ensures |pre| + 13 + |cols| < |sql| && sql[|pre| + 13..|pre| + 13 + |cols|] == cols && sql[|pre| + 13 + |cols|] == ')'
    ensures sql[|pre|..|pre| + 13] == "PRIMARY KEY ("
  {
    assert sql == (pre + "PRIMARY KEY (") + cols + (")" + post);
  }

  /** An occurrence at `k` means `find` from 0 succeeds. */
  lemma FindAt(s: string, pat: string, k: nat)
    requires MatchAt(s, pat, k)
    ensures Find(s, pat, 0) != -1
  {
  }

  /** An occurrence at `k` with none before it is what `find` from 0 returns. */
  lemma FindFirst(s: string, pat: string, k: nat)
    requires MatchAt(s, pat, k) && forall i :: 0 <= i < k ==> !MatchAt(s, pat, i)
    ensures Find(s, pat, 0) == k
  {
  }

  /** `pk_columns` once both finds are known: the text between `PRIMARY KEY (` and the `)`. */
  lemma PkColumnsBetween(sql: string, st: nat, en: nat)
    requires 13 <= st <= en <= |sql|
    requires Find(Upper(sql), "PRIMARY KEY", 0) != -1 && Find(Upper(sql), "PRIMARY KEY (", 0) == st - 13
    requires Find(Upper(sql), ")", st) == en
    ensures PkColumns(sql) == ColumnList(sql[st..en])
  {
  }

  /**
   * A column-level `ts_code VARCHAR PRIMARY KEY,` (the only `PRIMARY KEY` in
   * the text, directly followed by a comma) matches neither form, so no index
   * is created; the PRIMARY KEY constraint itself still holds.
   */
  lemma InlinePrimaryKey(sql: string, i: nat)
    requires MatchAt(Upper(sql), "PRIMARY KEY", i) && i + 11 < |sql| && sql[i + 11] == ','
    requires forall j :: j != i ==> !MatchAt(Upper(sql), "PRIMARY KEY", j)
    ensures PkColumns(sql) == None
  {
    var up := Upper(sql);
    assert up[i + 11] == ',';
    forall j ensures !MatchAt(up, "PRIMARY KEY (", j) {
      CompositeIsKey(up, j);
    }
    NoKeyAfterComma(up, i);
  }

  lemma NoKeyAfterComma(up: string, i: nat)
    requires MatchAt(up, "PRIMARY KEY", i) && i + 11 < |up| && up[i + 11] == ','
    requires forall j :: j != i ==> !MatchAt(up, "PRIMARY KEY", j)
    ensures Find(up, "PRIMARY KEY", 0) != -1 && KeySearch(up, 0) == None
  {
    assert Find(up, "PRIMARY KEY", 0) == i;
    assert SpacesEnd(up, i + 11) == i + 11;
    assert KeyAt(up, i) == None;
    assert Find(up, "PRIMARY KEY", i + 1) == -1;
  }

  /** `str.split(',')`. */
  function SplitComma(s: string): (parts: seq<string>)
    ensures |parts| >= 1
    decreases |s|
  {
    var i := Find(s, ",", 0);
    if i == -1 then [s] else [s[..i]] + SplitComma(s[i + 1..])
  }

  /** DuckDB resolves every column of the index list, case-insensitively. */
  predicate IndexColumnsKnown(cols: string, columns: seq<string>) {
    forall c :: c in SplitComma(cols) ==> exists k :: k in columns && Upper(k) == Upper(c)
  }

  /** The tables after `init_table`: a known table that does not exist yet is created empty; nothing else changes. */
  function Initialized(tables: map<string, Table>, name: string, schemas: map<string, Schema>): (t: map<string, Table>)
    ensures name in t <==> name in tables || name in schemas
    ensures forall n :: n in tables ==> n in t && t[n] == tables[n]
    ensures forall n :: n in t && n != name ==> n in tables
  {
    if name in schemas && name !in tables then tables[name := Table(schemas[name].columns, [], schemas[name].primaryKey)]
    else tables
  }

  /**
   * `init_table`: False without touching anything for an unknown table or one
   * that already exists (its CREATE TABLE has no IF NOT EXISTS); otherwise the
   * empty table is created, and the result says whether the unique-index
   * statement that follows succeeded.
   */
  method InitTable(db: Database, name: string, schemas: map<string, Schema>) returns (ok: bool)
    modifies db
    ensures db.meta == old(db.meta)
    ensures db.tables == Initialized(old(db.tables), name, schemas)
    ensures name !in schemas || name in old(db.tables) ==> !ok && db.tables == old(db.tables)
    ensures name in schemas && name !in old(db.tables) ==>
      var sc := schemas[name];
      && db.tables == old(db.tables)[name := Table(sc.columns, [], sc.primaryKey)]
      && ok == (PkColumns(sc.sql).None? || IndexColumnsKnown(PkColumns(sc.sql).value, sc.columns))
  {
    if name !in schemas {
      return false;
    }
    var sc := schemas[name];
    if name in db.tables {
      return false;
    }
    db.tables := db.tables[name := Table(sc.columns, [], sc.primaryKey)];
    var pk := PkColumns(sc.sql);
    if pk.Some? && !IndexColumnsKnown(pk.value, sc.columns) {
      return false;
    }
    return true;
  }
}
