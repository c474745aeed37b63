/**
 * The planning part of `fetch_and_store_data` in src/tushare_duckdb/main.py:
 * which tables of a category are updated, the clamped date window, which date
 * list reaches the processor and the fetch type; and the storage-mode menu of
 * `main()`.
 *
 * A category's configuration is its tables in configuration order, each with
 * the entries planning reads. "Today" is a parameter, and the trade calendar
 * query (`get_trade_dates`) is the oracle `tradeDays(start, end)`.
 */
module MainPlan {
  import opened Common
  import opened Utils

  /** The planning entries of one table's configuration; absent entries are `None`. */
  datatype TableConf = TableConf(requiresDate: bool, dateType: string, earliest: Option<string>, forceDaily: bool)

  type Category = seq<(string, TableConf)>

  function Names(c: Category): (ns: seq<string>)
    ensures |ns| == |c| && forall i :: 0 <= i < |c| ==> ns[i] == c[i].0
  {
    seq(|c|, i requires 0 <= i < |c| => c[i].0)
  }

  /** The configuration of table `t`, the first with that name. */
  function ConfOf(c: Category, t: string): TableConf
    requires t in Names(c)
  {
    if c[0].0 == t then c[0].1 else ConfOf(c[1..], t)
  }

  /** The tokens of the table selection: `(selected_tables or 'all').split(',')`, each stripped. */
  function Tokens(sel: Option<string>): (ts: seq<string>)
  {
    var parts := SplitComma(if Truthy(sel) then sel.value else "all");
    seq(|parts|, i requires 0 <= i < |parts| => Strip(parts[i]))
  }

  /**
   * The tables to update: the stripped tokens that name a configured table,
   * in the order given; every table when none does.
   */
  function SelectTables(sel: Option<string>, all: seq<string>): (r: seq<string>)
    ensures forall t :: t in r ==> t in all
    ensures (exists t :: t in Tokens(sel) && t in all) ==> forall t :: t in r <==> t in Tokens(sel) && t in all
    ensures (forall t :: t in Tokens(sel) ==> t !in all) ==> r == all
  {
    var kept := Filter(Tokens(sel), t => t in all);
    assert kept != [] ==> kept[0] in kept;
    if kept == [] then all else kept
  }

  /** The end of the window: trade-day data never ends after today, natural-day data may. */
  function ClampEnd(dateType: string, end: Option<string>, today: string): (r: string)
    ensures dateType == "trade" ==> StrLe(r, today)
    ensures !Truthy(end) ==> r == today
    ensures Truthy(end) && (dateType != "trade" || StrLe(end.value, today)) ==> r == end.value
  {
    var e := if Truthy(end) then end.value else today;
    if dateType == "trade" then MinStr(e, today) else e
  }

  function EarliestOf(conf: TableConf): string {
    if conf.earliest.Some? then conf.earliest.value else "19900101"
  }

  /** The earliest supported date over the selected tables. */
  function Earliest(c: Category, ts: seq<string>): (r: string)
    requires |ts| > 0 && forall t :: t in ts ==> t in Names(c)
    ensures forall t :: t in ts ==> StrLe(r, EarliestOf(ConfOf(c, t)))
    ensures exists t :: t in ts && r == EarliestOf(ConfOf(c, t))
  {
    if |ts| == 1 then
      StrLeRefl(EarliestOf(ConfOf(c, ts[0])));
      EarliestOf(ConfOf(c, ts[0]))
    else
      var rest := Earliest(c, ts[1..]);
      assert forall t :: t in ts[1..] ==> t in ts;
      var m := MinStr(EarliestOf(ConfOf(c, ts[0])), rest);
      forall t | t in ts
        ensures StrLe(m, EarliestOf(ConfOf(c, t)))
      {
        if t != ts[0] {
          assert t in ts[1..];
          StrLeTrans(m, rest, EarliestOf(ConfOf(c, t)));
        }
      }
      m
  }

  /** The start of the window: never before the earliest supported date. */
  function ClampStart(start: Option<string>, earliest: string): (r: string)
    ensures StrLe(earliest, r)
    ensures !Truthy(start) ==> r == earliest
    ensures Truthy(start) && StrLe(earliest, start.value) ==> r == start.value
  {
    var s := if Truthy(start) then start.value else earliest;
    StrLeRefl(earliest);
    if StrLe(earliest, s) then s else earliest
  }

  /** What `fetch_and_store_data` does before the per-table loop. */
  datatype Planned =
    | UnknownCategory                      // ValueError
    | NoTables                             // `selected_tables_list[0]` raises IndexError
    | NoDates                              // returns 0
    | NoYearDates                          // `list(date_sets.values())[0]` raises IndexError
    | Run(tables: seq<string>, start: string, end: string, dates: seq<string>, fetchType: string)

  /** The date list of one window: the trade calendar for trade-day data that needs dates, else every day. */
  function DatesOf(conf: TableConf, tradeDays: (string, string) -> seq<string>, s: string, e: string): seq<string> {
    if conf.dateType == "trade" && conf.requiresDate then tradeDays(s, e) else AllDates(s, e)
  }

  /** The date list of each year `y` of `years`: its window `y0101` to `y1231`. */
  function YearDates(conf: TableConf, tradeDays: (string, string) -> seq<string>): string -> seq<string> {
    y => DatesOf(conf, tradeDays, y + "0101", y + "1231")
  }

  /** The first non-empty `f(y)` for `y` in `ys`, in order. */
  function FirstNonEmpty(f: string -> seq<string>, ys: seq<string>): Option<seq<string>> {
    if ys == [] then None
    else if f(ys[0]) != [] then Some(f(ys[0]))
    else FirstNonEmpty(f, ys[1..])
  }

  /** The date list of the first year with any dates (the first value of `date_sets`). */
  function FirstYearDates(conf: TableConf, tradeDays: (string, string) -> seq<string>, years: seq<string>): Option<seq<string>> {
    FirstNonEmpty(YearDates(conf, tradeDays), years)
  }

  /** `fetch_type`, switched to 'daily' when a selected table forces day-by-day fetching. */
  function FetchType(c: Category, ts: seq<string>, given: string): string
    requires forall t :: t in ts ==> t in Names(c)
  {
    if exists t :: t in ts && ConfOf(c, t).forceDaily then "daily" else given
  }

  function Plan(config: map<string, Category>, category: string, sel: Option<string>,
                start: Option<string>, end: Option<string>, years: seq<string>, today: string,
                tradeDays: (string, string) -> seq<string>, fetchType: string): (p: Planned)
  {
    if category !in config then UnknownCategory
    else
      var c := config[category];
      var ts := SelectTables(sel, Names(c));
      if ts == [] then NoTables
      else
      var sample := ConfOf(c, ts[0]);
      var e := ClampEnd(sample.dateType, end, today);
      var s := ClampStart(start, Earliest(c, ts));
      var ft := FetchType(c, ts, fetchType);
      if years != [] then
        match FirstYearDates(sample, tradeDays, years)
        case None => NoYearDates
        case Some(ds) => Run(ts, s, e, ds, ft)
      else
        var ds := DatesOf(sample, tradeDays, s, e);
        if ds == [] then NoDates else Run(ts, s, e, ds, ft)
  }

  /**
   * Without years the processor gets the clamped window: trade-day data ends
   * no later than today, the start is no earlier than the earliest date of
   * the selected tables, and data that is not trade-day data gets every day
   * of the window.
   */
  lemma PlanWindow(config: map<string, Category>, category: string, sel: Option<string>,
                   start: Option<string>, end: Option<string>, today: string,
                   tradeDays: (string, string) -> seq<string>, fetchType: string)
    requires category in config
    ensures var p := Plan(config, category, sel, start, end, [], today, tradeDays, fetchType);
      var c := config[category];
      && p != UnknownCategory && p != NoYearDates
      && (p.NoTables? <==> c == [])
      && (p.Run? ==>
            var sample := ConfOf(c, p.tables[0]);
            && p.dates != []
            && p.tables == SelectTables(sel, Names(c))
            && StrLe(Earliest(c, p.tables), p.start)
            && (sample.dateType == "trade" ==> StrLe(p.end, today))
            && (!(sample.dateType == "trade" && sample.requiresDate) ==> p.dates == AllDates(p.start, p.end)))
  {
    PlanNoTables(config, category, sel, start, end, [], today, tradeDays, fetchType);
  }

  /** An unknown category is rejected before anything else happens. */
  lemma PlanUnknown(config: map<string, Category>, category: string, sel: Option<string>,
                    start: Option<string>, end: Option<string>, years: seq<string>, today: string,
                    tradeDays: (string, string) -> seq<string>, fetchType: string)
    ensures Plan(config, category, sel, start, end, years, today, tradeDays, fetchType) == UnknownCategory
        <==> category !in config
  {
  }

  /** The selection is empty exactly when the category has no table. */
  lemma SelectNone(sel: Option<string>, all: seq<string>)
    ensures SelectTables(sel, all) == [] <==> all == []
  {
    if all != [] && exists t :: t in Tokens(sel) && t in all {
      var t :| t in Tokens(sel) && t in all;
      assert t in SelectTables(sel, all);
    }
  }

  /**
   * A known category with no configured table selects nothing, and the plan
   * raises on the first selected table; one with tables always selects some.
   */
  lemma PlanNoTables(config: map<string, Category>, category: string, sel: Option<string>,
                     start: Option<string>, end: Option<string>, years: seq<string>, today: string,
                     tradeDays: (string, string) -> seq<string>, fetchType: string)
    requires category in config
    ensures Plan(config, category, sel, start, end, years, today, tradeDays, fetchType).NoTables?
        <==> config[category] == []
  {
    SelectNone(sel, Names(config[category]));
  }

  /**
   * With years, only the first year that has dates reaches the processor,
   * and when no year has any the call raises instead of returning 0.
   */
  lemma FirstYearOnly(conf: TableConf, tradeDays: (string, string) -> seq<string>, years: seq<string>)
    ensures FirstYearDates(conf, tradeDays, years).None?
        <==> forall i :: 0 <= i < |years| ==> DatesOf(conf, tradeDays, years[i] + "0101", years[i] + "1231") == []
    ensures FirstYearDates(conf, tradeDays, years).Some? ==>
      exists i :: 0 <= i < |years|
        && FirstYearDates(conf, tradeDays, years).value == DatesOf(conf, tradeDays, years[i] + "0101", years[i] + "1231")
        && FirstYearDates(conf, tradeDays, years).value != []
        && forall j :: 0 <= j < i ==> DatesOf(conf, tradeDays, years[j] + "0101", years[j] + "1231") == []
  {
    FirstNonEmptyMeaning(YearDates(conf, tradeDays), years);
  }

  /** `FirstNonEmpty` is None exactly when every list is empty, and otherwise the first non-empty one. */
  lemma {:induction false} FirstNonEmptyMeaning(f: string -> seq<string>, ys: seq<string>)
    ensures FirstNonEmpty(f, ys).None? <==> forall i :: 0 <= i < |ys| ==> f(ys[i]) == []
    ensures FirstNonEmpty(f, ys).Some? ==>
      exists i :: 0 <= i < |ys| && FirstNonEmpty(f, ys).value == f(ys[i]) && f(ys[i]) != []
        && forall j :: 0 <= j < i ==> f(ys[j]) == []
  {
    if ys != [] && f(ys[0]) == [] {
      FirstNonEmptyMeaning(f, ys[1..]);
      if FirstNonEmpty(f, ys).Some? {
        var i :| 0 <= i < |ys[1..]| && FirstNonEmpty(f, ys[1..]).value == f(ys[1..][i]) && f(ys[1..][i]) != []
          && forall j :: 0 <= j < i ==> f(ys[1..][j]) == [];
        assert forall j :: 0 < j <= i + 1 ==> ys[j] == ys[1..][j - 1];
      } else {
        forall i | 0 <= i < |ys|
          ensures f(ys[i]) == []
        {
          if i > 0 {
            assert ys[i] == ys[1..][i - 1];
          }
        }
      }
    }
  }

  /** The storage-mode menu: (force_fetch, overwrite), or None for an invalid choice. */
  function MenuMode(mode: string): (r: Option<(bool, bool)>)
    ensures r.Some? <==> mode in {"1", "2", "3"}
    ensures r.Some? ==> (r.value.1 <==> mode == "2")
    ensures r.Some? ==> (r.value.0 <==> mode != "1")
  {
    if mode !in {"1", "2", "3"} then None
    else Some((mode == "2" || mode == "3", mode == "2"))
  }

  /**
   * Mode 3 differs from mode 1 only in `force_fetch`, which the processor
   * never reads, so both store the same way.
   */
  lemma ModeThreeIsModeOne()
    ensures MenuMode("3").value.1 == MenuMode("1").value.1
    ensures MenuMode("3").value.0 != MenuMode("1").value.0
  {
  }
}
