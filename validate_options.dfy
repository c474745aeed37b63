/**
 * scripts/validate_options.py: the contract consistency check between
 * `opt_basic` and `opt_daily` (`check_missing_contracts`), the per-contract
 * completeness check against the trade calendar
 * (`check_data_completeness`) and the per-exchange coverage merge
 * (`get_data_coverage_by_exchange`).
 *
 * The SQL queries are inputs: the distinct codes of each table (already
 * restricted to the exchange when one is given), the calendar's open SSE
 * days as a set, the grouped contract rows in code order and the two
 * per-exchange aggregates. "Today" is a parameter.
 */
module ValidateOptions {
  import opened Common

  // ---------------------------------------------------------------------------
  // check_missing_contracts (lines 45-114)
  // ---------------------------------------------------------------------------

  datatype MissingReport = MissingReport(totalBasic: nat, totalDaily: nat, missingInBasic: seq<string>, extraInBasic: seq<string>)

  /** Contracts quoted but unknown to `opt_basic`, and listed contracts without quotes, each sorted. */
  method CheckMissingContracts(basic: set<string>, daily: set<string>) returns (r: MissingReport)
    ensures r.totalBasic == |basic| && r.totalDaily == |daily|
    ensures StrictlyAscending(r.missingInBasic) && forall c :: c in r.missingInBasic <==> c in daily && c !in basic
    ensures StrictlyAscending(r.extraInBasic) && forall c :: c in r.extraInBasic <==> c in basic && c !in daily
  {
    var missing := SortSet(daily - basic);
    var extra := SortSet(basic - daily);
    r := MissingReport(|basic|, |daily|, missing, extra);
  }

  // ---------------------------------------------------------------------------
  // check_data_completeness (lines 117-219)
  // ---------------------------------------------------------------------------

  /** One row of the grouped query; `actual` is COUNT(DISTINCT d.trade_date). */
  datatype OptRow = OptRow(code: string, list: Option<string>, delist: Option<string>, exchange: Value, actual: nat)

  /** One entry of `incomplete_contracts`; `completeness` is the ratio before it is formatted. */
  datatype Shortfall = Shortfall(code: string, exchange: Value, list: string, delist: string,
                                 expected: nat, actual: nat, missing: int, completeness: real)

  /** The outcome for one contract. */
  datatype Verdict =
    | Skipped                   // no list date or no delist date
    | NoExpectedDays            // checked, but no trade day in its window
    | Complete
    | Incomplete(s: Shortfall)

  /** The open days from `list` to `end`. */
  function WindowDays(tradeDays: set<string>, list: string, end: string): set<string> {
    set d | d in tradeDays && StrLe(list, d) && StrLe(d, end)
  }

  /**
   * The verdict on one contract. It is skipped exactly when a date is
   * missing, and complete exactly when it has both dates, its window up to
   * the earlier of delist date and today holds a trade day, and it has at
   * least 95% of those days; an incomplete one records a positive number of
   * missing days.
   */
  function Judge(row: OptRow, tradeDays: set<string>, today: string): (v: Verdict)
    ensures v == Skipped <==> !Truthy(row.list) || !Truthy(row.delist)
    ensures v == Complete <==>
      (Truthy(row.list) && Truthy(row.delist) &&
       var n := |WindowDays(tradeDays, row.list.value, MinStr(row.delist.value, today))|;
       n > 0 && 100 * row.actual >= 95 * n)
    ensures v.Incomplete? ==>
      (v.s.code == row.code && v.s.actual == row.actual && v.s.expected > 0 &&
       v.s.actual < v.s.expected && v.s.missing == v.s.expected - v.s.actual && v.s.missing > 0)
  {
    if !Truthy(row.list) || !Truthy(row.delist) then Skipped
    else
      var end := MinStr(row.delist.value, today);
      var expected := |WindowDays(tradeDays, row.list.value, end)|;
      if expected == 0 then NoExpectedDays
      else if 100 * row.actual >= 95 * expected then Complete
      else Incomplete(Shortfall(row.code, row.exchange, row.list.value, row.delist.value, expected, row.actual,
                                expected - row.actual, row.actual as real / expected as real))
  }

  /** The expected days never reach beyond today or the delist date. */
  lemma WindowBounded(tradeDays: set<string>, list: string, delist: string, today: string, d: string)
    requires d in WindowDays(tradeDays, list, MinStr(delist, today))
    ensures d in tradeDays && StrLe(list, d) && StrLe(d, today) && StrLe(d, delist)
  {
    var end := MinStr(delist, today);
    StrLeTrans(d, end, today);
    StrLeTrans(d, end, delist);
  }

  function Verdicts(rows: seq<OptRow>, tradeDays: set<string>, today: string): (vs: seq<Verdict>)
    ensures |vs| == |rows| && forall i :: 0 <= i < |rows| ==> vs[i] == Judge(rows[i], tradeDays, today)
  {
    seq(|rows|, i requires 0 <= i < |rows| => Judge(rows[i], tradeDays, today))
  }

  function CountComplete(vs: seq<Verdict>): nat {
    if vs == [] then 0 else CountComplete(vs[..|vs| - 1]) + if vs[|vs| - 1] == Complete then 1 else 0
  }

  function Shortfalls(vs: seq<Verdict>): seq<Shortfall> {
    if vs == [] then [] else Shortfalls(vs[..|vs| - 1]) + if vs[|vs| - 1].Incomplete? then [vs[|vs| - 1].s] else []
  }

  function CountOther(vs: seq<Verdict>): nat {
    if vs == [] then 0
    else CountOther(vs[..|vs| - 1]) + if vs[|vs| - 1] == Skipped || vs[|vs| - 1] == NoExpectedDays then 1 else 0
  }

  /**
   * Each checked contract is counted complete, listed incomplete, or neither
   * (skipped, or no expected day); so complete plus incomplete is at most the
   * number checked.
   */
  lemma {:induction false} VerdictsPartition(vs: seq<Verdict>)
    ensures CountComplete(vs) + |Shortfalls(vs)| + CountOther(vs) == |vs|
  {
    if vs != [] {
      VerdictsPartition(vs[..|vs| - 1]);
    }
  }

  /** A shortfall is listed exactly for the contracts judged incomplete. */
  lemma {:induction false} ShortfallsExact(vs: seq<Verdict>, s: Shortfall)
    ensures s in Shortfalls(vs) <==> exists i :: 0 <= i < |vs| && vs[i] == Incomplete(s)
  {
    if vs != [] {
      var init := vs[..|vs| - 1];
      ShortfallsExact(init, s);
      if s in Shortfalls(init) {
        var i :| 0 <= i < |init| && init[i] == Incomplete(s);
        assert vs[i] == init[i];
      }
      if i :| 0 <= i < |vs| && vs[i] == Incomplete(s) {
        if i < |init| {
          assert init[i] == vs[i];
        }
      }
    }
  }

  lemma VerdictsSnoc(vs: seq<Verdict>, i: nat)
    requires i < |vs|
    ensures CountComplete(vs[..i + 1]) == CountComplete(vs[..i]) + (if vs[i] == Complete then 1 else 0)
    ensures Shortfalls(vs[..i + 1]) == Shortfalls(vs[..i]) + (if vs[i].Incomplete? then [vs[i].s] else [])
  {
    assert vs[..i + 1][..i] == vs[..i];
  }

  datatype CompletenessReport = CompletenessReport(checked: nat, complete: nat, incomplete: seq<Shortfall>)

  /** `check_data_completeness`: the (possibly limited) contracts, each judged in turn. */
  method CheckDataCompleteness(rows: seq<OptRow>, sampleSize: int, tradeDays: set<string>, today: string)
    returns (r: CompletenessReport)
    ensures r.checked == |Limit(rows, sampleSize)|
    ensures var vs := Verdicts(Limit(rows, sampleSize), tradeDays, today);
      r.complete == CountComplete(vs) && r.incomplete == Shortfalls(vs)
    ensures r.complete + |r.incomplete| <= r.checked
  {
    var contracts := Limit(rows, sampleSize);
    ghost var vs := Verdicts(contracts, tradeDays, today);
    var complete: nat := 0;
    var incomplete: seq<Shortfall> := [];
    var i := 0;
    while i < |contracts|
      invariant 0 <= i <= |contracts|
      invariant complete == CountComplete(vs[..i]) && incomplete == Shortfalls(vs[..i])
    {
      VerdictsSnoc(vs, i);
      var v := Judge(contracts[i], tradeDays, today);
      if v == Complete {
        complete := complete + 1;
      } else if v.Incomplete? {
        incomplete := incomplete + [v.s];
      }
      i := i + 1;
    }
    assert vs[..i] == vs;
    VerdictsPartition(vs);
    r := CompletenessReport(|contracts|, complete, incomplete);
  }

  // ---------------------------------------------------------------------------
  // get_data_coverage_by_exchange (lines 280-325)
  // ---------------------------------------------------------------------------

  /** One row of the `opt_basic` aggregate: COUNT(*), MIN(list_date), MAX(delist_date). */
  datatype BasicStat = BasicStat(count: nat, earliest: Value, latest: Value)

  /** One row of the `opt_daily` aggregate: distinct contracts, MIN/MAX(trade_date), COUNT(*). */
  datatype DailyStat = DailyStat(contracts: nat, earliest: Value, latest: Value, records: nat)

  /** The merged entry of one exchange; a part is None when that aggregate has no row for it. */
  datatype Coverage = Coverage(basic: Option<BasicStat>, daily: Option<DailyStat>)

  /** The last aggregate row of `exch`, if any. */
  function LastOf<S>(rows: seq<(Value, S)>, exch: Value): Option<S> {
    if rows == [] then None
    else if rows[|rows| - 1].0 == exch then Some(rows[|rows| - 1].1)
    else LastOf(rows[..|rows| - 1], exch)
  }

  lemma {:induction false} LastOfSome<S>(rows: seq<(Value, S)>, exch: Value)
    ensures LastOf(rows, exch).Some? <==> exists i :: 0 <= i < |rows| && rows[i].0 == exch
  {
    if rows != [] {
      LastOfSome(rows[..|rows| - 1], exch);
      if i :| 0 <= i < |rows| && rows[i].0 == exch {
        if i < |rows| - 1 {
          assert rows[..|rows| - 1][i] == rows[i];
        }
      }
      if LastOf(rows[..|rows| - 1], exch).Some? {
        var i :| 0 <= i < |rows| - 1 && rows[..|rows| - 1][i].0 == exch;
        assert rows[i] == rows[..|rows| - 1][i];
      }
    }
  }

  /** The merged coverage: the exchanges of either aggregate, each with what both say about it. */
  ghost predicate Merged(result: map<Value, Coverage>, basicStats: seq<(Value, BasicStat)>, dailyStats: seq<(Value, DailyStat)>) {
    && (forall e :: e in result <==> LastOf(basicStats, e).Some? || LastOf(dailyStats, e).Some?)
    && (forall e :: e in result ==> result[e] == Coverage(LastOf(basicStats, e), LastOf(dailyStats, e)))
  }

  /** `get_data_coverage_by_exchange`: the basic rows first, then the daily rows merged in. */
  method CoverageByExchange(basicStats: seq<(Value, BasicStat)>, dailyStats: seq<(Value, DailyStat)>)
    returns (result: map<Value, Coverage>)
    ensures Merged(result, basicStats, dailyStats)
  {
    result := map[];
    var i := 0;
    while i < |basicStats|
      invariant 0 <= i <= |basicStats|
      invariant forall e :: e in result <==> LastOf(basicStats[..i], e).Some?
      invariant forall e :: e in result ==> result[e] == Coverage(LastOf(basicStats[..i], e), None)
    {
      assert basicStats[..i + 1][..i] == basicStats[..i];
      result := result[basicStats[i].0 := Coverage(Some(basicStats[i].1), None)];
      i := i + 1;
    }
    assert basicStats[..i] == basicStats;
    var j := 0;
    while j < |dailyStats|
      invariant 0 <= j <= |dailyStats|
      invariant forall e :: e in result <==> LastOf(basicStats, e).Some? || LastOf(dailyStats[..j], e).Some?
      invariant forall e :: e in result ==> result[e] == Coverage(LastOf(basicStats, e), LastOf(dailyStats[..j], e))
    {
      assert dailyStats[..j + 1][..j] == dailyStats[..j];
      var e := dailyStats[j].0;
      var basicPart := if e in result then result[e].basic else None;
      result := result[e := Coverage(basicPart, Some(dailyStats[j].1))];
      j := j + 1;
    }
    assert dailyStats[..j] == dailyStats;
  }

  /** An exchange seen only in `opt_daily` still gets an entry, with no basic part. */
  lemma DailyOnlyExchange(result: map<Value, Coverage>, basicStats: seq<(Value, BasicStat)>, dailyStats: seq<(Value, DailyStat)>,
                          e: Value, i: nat)
    requires Merged(result, basicStats, dailyStats)
    requires i < |dailyStats| && dailyStats[i].0 == e
    requires forall k :: 0 <= k < |basicStats| ==> basicStats[k].0 != e
    ensures e in result && result[e].basic.None? && result[e].daily.Some?
  {
    LastOfSome(dailyStats, e);
    LastOfSome(basicStats, e);
  }
}
