/**
 * scripts/validate_stocks.py: the code consistency check between
 * `stock_basic` and `daily` (`check_basic_consistency`) and the per-stock
 * completeness check against the trade calendar net of suspensions
 * (`check_data_gaps`).
 *
 * The SQL queries are inputs: the distinct codes of each table, the
 * calendar's open SSE days up to today in date order, and the grouped
 * stock rows (code, name, list date, delist date, number of daily rows) in
 * code order. The `suspend_d` table is a frame; "today" is a parameter.
 */
module ValidateStocks {
  import opened Common

  // ---------------------------------------------------------------------------
  // check_basic_consistency (lines 45-75)
  // ---------------------------------------------------------------------------

  datatype Consistency = Consistency(totalBasic: nat, totalDaily: nat, missingInBasic: seq<string>, extraInBasic: seq<string>)

  /**
   * The codes traded in `daily` but unknown to `stock_basic`, and the codes of
   * `stock_basic` without any quote, each sorted; the two lists never share
   * a code.
   */
  method CheckBasicConsistency(basic: set<string>, daily: set<string>) returns (r: Consistency)
    ensures r.totalBasic == |basic| && r.totalDaily == |daily|
    ensures StrictlyAscending(r.missingInBasic) && forall c :: c in r.missingInBasic <==> c in daily && c !in basic
    ensures StrictlyAscending(r.extraInBasic) && forall c :: c in r.extraInBasic <==> c in basic && c !in daily
    ensures forall c :: !(c in r.missingInBasic && c in r.extraInBasic)
  {
    var missing := SortSet(daily - basic);
    var extra := SortSet(basic - daily);
    r := Consistency(|basic|, |daily|, missing, extra);
  }

  // ---------------------------------------------------------------------------
  // check_data_gaps (lines 117-214)
  // ---------------------------------------------------------------------------

  /** One row of the grouped query: `actual` is COUNT(d.trade_date) of the code. */
  datatype StockRow = StockRow(code: string, name: Value, list: string, delist: Option<string>, actual: nat)

  /** One entry of `incomplete_contracts`; `rate` is the ratio before it is formatted as a percentage. */
  datatype Shortfall = Shortfall(code: string, name: Value, list: string, expected: int, actual: nat,
                                 suspended: nat, missing: int, rate: real)

  datatype GapReport = GapReport(checked: nat, complete: nat, incomplete: seq<Shortfall>)

  /** The last day checked: the delist date when there is one and it is earlier, else today. */
  function CheckEnd(delist: Option<string>, today: string): (e: string)
    ensures StrLe(e, today)
    ensures Truthy(delist) ==> StrLe(e, delist.value) && (e == delist.value || e == today)
    ensures !Truthy(delist) ==> e == today
  {
    StrLeRefl(today);
    if Truthy(delist) then MinStr(delist.value, today) else today
  }

  /** The calendar days from the list date to the end, in calendar order. */
  function ExpectedDays(tradeDays: seq<string>, list: string, end: string): (ds: seq<string>)
    ensures |ds| <= |tradeDays|
    ensures forall d :: d in ds <==> d in tradeDays && StrLe(list, d) && StrLe(d, end)
  {
    Filter(tradeDays, d => StrLe(list, d) && StrLe(d, end))
  }

  function Elems(s: seq<string>): set<string> {
    set d | d in s
  }

  lemma {:induction false} ElemsCard(s: seq<string>)
    ensures |Elems(s)| <= |s|
  {
    if s != [] {
      ElemsCard(s[1..]);
      assert Elems(s) == Elems(s[1..]) + {s[0]};
    }
  }

  /** The `suspend_d` dates of one code. */
  function SuspendDays(susp: Frame, code: string): set<string> {
    set r | r in susp && Get(r, "ts_code") == Some(code) && Get(r, "trade_date").Some? :: Get(r, "trade_date").value
  }

  /**
   * The verdict on one stock: None when it is complete. A stock whose count
   * equals the expected count is complete without looking at suspensions;
   * otherwise the suspended expected days are discounted and 99% of the rest
   * suffices.
   */
  function Judge(row: StockRow, tradeDays: seq<string>, today: string, susp: Frame): Option<Shortfall> {
    var exp := ExpectedDays(tradeDays, row.list, CheckEnd(row.delist, today));
    if row.actual == |exp| then None
    else
      var valid := Elems(exp) * SuspendDays(susp, row.code);
      var adjusted := |exp| - |valid|;
      if 100 * row.actual >= 99 * adjusted then None
      else
        Some(Shortfall(row.code, row.name, row.list, adjusted, row.actual, |valid|, adjusted - row.actual,
                       if adjusted > 0 then row.actual as real / adjusted as real else 0.0))
  }

  /**
   * A shortfall discounts only suspended days that are expected days; its
   * expected count is positive (so the zero rate is never reported), its
   * actual count below 99% of it and its missing count positive.
   */
  lemma ShortfallMeaning(row: StockRow, tradeDays: seq<string>, today: string, susp: Frame)
    requires Judge(row, tradeDays, today, susp).Some?
    ensures var s := Judge(row, tradeDays, today, susp).value;
      var exp := ExpectedDays(tradeDays, row.list, CheckEnd(row.delist, today));
      && s.code == row.code && s.actual == row.actual
      && s.suspended == |Elems(exp) * SuspendDays(susp, row.code)|
      && s.expected == |exp| - s.suspended
      && 0 < s.expected <= |exp| && s.actual < s.expected && 100 * s.actual < 99 * s.expected
      && s.missing == s.expected - s.actual && s.missing > 0
  {
    var exp := ExpectedDays(tradeDays, row.list, CheckEnd(row.delist, today));
    ElemsCard(exp);
    var valid := Elems(exp) * SuspendDays(susp, row.code);
    assert valid <= Elems(exp);
    SubsetCard(valid, Elems(exp));
  }

  lemma SubsetCard(a: set<string>, b: set<string>)
    requires a <= b
    ensures |a| <= |b|
  {
    assert b == a + (b - a);
  }

  /** A stock with at least as many quotes as expected days is complete, whatever its suspensions. */
  lemma FullCountComplete(row: StockRow, tradeDays: seq<string>, today: string, susp: Frame)
    requires row.actual >= |ExpectedDays(tradeDays, row.list, CheckEnd(row.delist, today))|
    ensures Judge(row, tradeDays, today, susp).None?
  {
    if Judge(row, tradeDays, today, susp).Some? {
      ShortfallMeaning(row, tradeDays, today, susp);
    }
  }

  /** A stock with at least 99% of its expected days net of suspensions is complete. */
  lemma NinetyNinePercentComplete(row: StockRow, tradeDays: seq<string>, today: string, susp: Frame)
    requires var exp := ExpectedDays(tradeDays, row.list, CheckEnd(row.delist, today));
      100 * row.actual >= 99 * (|exp| - |Elems(exp) * SuspendDays(susp, row.code)|)
    ensures Judge(row, tradeDays, today, susp).None?
  {
  }

  /** More quotes never turn a complete stock into an incomplete one. */
  lemma JudgeMonotone(row: StockRow, more: nat, tradeDays: seq<string>, today: string, susp: Frame)
    requires Judge(row, tradeDays, today, susp).None? && row.actual <= more
    ensures Judge(row.(actual := more), tradeDays, today, susp).None?
  {
    var exp := ExpectedDays(tradeDays, row.list, CheckEnd(row.delist, today));
    if row.actual == |exp| {
      FullCountComplete(row.(actual := more), tradeDays, today, susp);
    } else if Judge(row.(actual := more), tradeDays, today, susp).Some? {
      ShortfallMeaning(row.(actual := more), tradeDays, today, susp);
    }
  }

  /** The verdicts on a run of stocks, in query order. */
  function Verdicts(rows: seq<StockRow>, tradeDays: seq<string>, today: string, susp: Frame): (vs: seq<Option<Shortfall>>)
    ensures |vs| == |rows| && forall i :: 0 <= i < |rows| ==> vs[i] == Judge(rows[i], tradeDays, today, susp)
  {
    seq(|rows|, i requires 0 <= i < |rows| => Judge(rows[i], tradeDays, today, susp))
  }

  /** `check_data_gaps`: the stocks of the (possibly limited) query, each judged in turn. */
  method CheckDataGaps(rows: seq<StockRow>, sampleSize: int, tradeDays: seq<string>, today: string, susp: Frame)
    returns (r: GapReport)
    ensures r.checked == |Limit(rows, sampleSize)|
    ensures var vs := Verdicts(Limit(rows, sampleSize), tradeDays, today, susp);
      r.complete == CountNone(vs) && r.incomplete == Somes(vs)
    ensures r.complete + |r.incomplete| == r.checked
  {
    var contracts := Limit(rows, sampleSize);
    ghost var vs := Verdicts(contracts, tradeDays, today, susp);
    var complete: nat := 0;
    var incomplete: seq<Shortfall> := [];
    var i := 0;
    while i < |contracts|
      invariant 0 <= i <= |contracts|
      invariant complete == CountNone(vs[..i]) && incomplete == Somes(vs[..i])
    {
      SomesSnoc(vs, i);
      var v := Judge(contracts[i], tradeDays, today, susp);
      if v.None? {
        complete := complete + 1;
      } else {
        incomplete := incomplete + [v.value];
      }
      i := i + 1;
    }
    assert vs[..i] == vs;
    SomesCount(vs);
    r := GapReport(|contracts|, complete, incomplete);
  }

  /** A stock is listed incomplete exactly when its verdict says so; every other checked stock is counted complete. */
  lemma ReportExact(rows: seq<StockRow>, tradeDays: seq<string>, today: string, susp: Frame, s: Shortfall)
    ensures var vs := Verdicts(rows, tradeDays, today, susp);
      && (s in Somes(vs) <==> exists i :: 0 <= i < |rows| && Judge(rows[i], tradeDays, today, susp) == Some(s))
      && CountNone(vs) + |Somes(vs)| == |rows|
  {
    var vs := Verdicts(rows, tradeDays, today, susp);
    SomesExact(vs, s);
    SomesCount(vs);
  }
}
