/**
 * Pure helpers of the market-insights dashboard's loader
 * (dashboard/market_insights_loader.py): the index display name, the PE
 * percentile of a market sector, the maximum drawdown of a price series and
 * the capped liquidity subscores.
 *
 * Prices, ratios and amounts are `real`s; a null (NaN) or missing value is
 * None.
 */
module MarketInsights {
  import opened Common

  // ---------------------------------------------------------------------------
  // get_index_display_name (lines 43-46)
  // ---------------------------------------------------------------------------

  /** `f"{code} - {GLOBAL_INDICES.get(code, code)}"`; `names` is the GLOBAL_INDICES table. */
  function DisplayName(code: string, names: map<string, string>): (s: string)
    ensures |s| >= |code| + 3 && s[..|code| + 3] == code + " - "
    ensures s[|code| + 3..] == (if code in names then names[code] else code)
  {
    code + " - " + (if code in names then names[code] else code)
  }

  // ---------------------------------------------------------------------------
  // calculate_pe_percentile (lines 267-292)
  // ---------------------------------------------------------------------------

  /** One daily_info row: the sector code and its PE (None for a null). */
  datatype DailyInfo = DailyInfo(tsCode: string, pe: Option<real>)

  /** The PE statistics returned; the median is not part of this model. */
  datatype PeStats = PeStats(currentPe: real, percentile: real, minPe: real, maxPe: real, meanPe: real)

  /** `df[df['ts_code'] == ts_code].dropna(subset=['pe'])['pe'].values`, in row order. */
  function PeValues(rows: seq<DailyInfo>, code: string): (vs: seq<real>)
    ensures |vs| <= |rows|
  {
    if rows == [] then []
    else (if rows[0].tsCode == code && rows[0].pe.Some? then [rows[0].pe.value] else []) + PeValues(rows[1..], code)
  }

  /** `(pe_values < current_pe).sum()`. */
  function CountBelow(vs: seq<real>, c: real): (n: nat)
    ensures n <= |vs|
  {
    if vs == [] then 0 else (if vs[0] < c then 1 else 0) + CountBelow(vs[1..], c)
  }

  function SeqMin(vs: seq<real>): (m: real)
    requires vs != []
    ensures m in vs && forall v :: v in vs ==> m <= v
  {
    if |vs| == 1 then vs[0]
    else
      var rest := SeqMin(vs[1..]);
      assert forall v :: v in vs ==> v == vs[0] || v in vs[1..];
      if vs[0] <= rest then vs[0] else rest
  }

  function SeqMax(vs: seq<real>): (m: real)
    requires vs != []
    ensures m in vs && forall v :: v in vs ==> v <= m
  {
    if |vs| == 1 then vs[0]
    else
      var rest := SeqMax(vs[1..]);
      assert forall v :: v in vs ==> v == vs[0] || v in vs[1..];
      if vs[0] >= rest then vs[0] else rest
  }

  function RealSum(vs: seq<real>): real {
    if vs == [] then 0.0 else vs[0] + RealSum(vs[1..])
  }

  /** `calculate_pe_percentile(df, ts_code)`: None when the sector has no PE at all. */
  function PePercentile(rows: seq<DailyInfo>, code: string): (r: Option<PeStats>)
    ensures r.None? <==> PeValues(rows, code) == []
  {
    var vs := PeValues(rows, code);
    if vs == [] then None
    else
      var current := vs[|vs| - 1];
      Some(PeStats(current, (CountBelow(vs, current) as real) / (|vs| as real) * 100.0,
                   SeqMin(vs), SeqMax(vs), RealSum(vs) / (|vs| as real)))
  }

  lemma {:induction false} CountBelowSelf(vs: seq<real>, c: real)
    requires c in vs
    ensures CountBelow(vs, c) < |vs|
  {
    if vs[0] != c {
      CountBelowSelf(vs[1..], c);
    } else {
      assert CountBelow(vs[1..], c) <= |vs[1..]|;
    }
  }

  lemma {:induction false} CountBelowZero(vs: seq<real>, c: real)
    ensures CountBelow(vs, c) == 0 <==> forall v :: v in vs ==> c <= v
  {
    if vs != [] {
      CountBelowZero(vs[1..], c);
      assert forall v :: v in vs ==> v == vs[0] || v in vs[1..];
      if vs[0] < c {
        assert vs[0] in vs && !(c <= vs[0]);
      } else if CountBelow(vs, c) == 0 {
        assert CountBelow(vs[1..], c) == 0;
        forall v | v in vs ensures c <= v {
          assert v == vs[0] || v in vs[1..];
        }
      } else {
        assert CountBelow(vs[1..], c) != 0;
        var v :| v in vs[1..] && v < c;
        assert v in vs;
      }
    }
  }

  /** The PE values of the sector's rows, and the current one is the last of them. */
  lemma {:induction false} PeValuesMeaning(rows: seq<DailyInfo>, code: string, v: real)
    ensures v in PeValues(rows, code) <==> exists i :: 0 <= i < |rows| && rows[i].tsCode == code && rows[i].pe == Some(v)
  {
    if rows != [] {
      PeValuesMeaning(rows[1..], code, v);
      if exists i :: 0 <= i < |rows| && rows[i].tsCode == code && rows[i].pe == Some(v) {
        var i :| 0 <= i < |rows| && rows[i].tsCode == code && rows[i].pe == Some(v);
        if i > 0 {
          assert rows[1..][i - 1] == rows[i];
        }
      }
      if exists i :: 0 <= i < |rows[1..]| && rows[1..][i].tsCode == code && rows[1..][i].pe == Some(v) {
        var i :| 0 <= i < |rows[1..]| && rows[1..][i].tsCode == code && rows[1..][i].pe == Some(v);
        assert rows[i + 1] == rows[1..][i];
      }
    }
  }

  /**
   * The percentile is the share of the sector's PE values strictly below the
   * current (latest) one, in [0, 100); it is 0 exactly when the current PE
   * is the minimum; and min <= current <= max.
   */
  lemma PePercentileBounds(rows: seq<DailyInfo>, code: string)
    requires PePercentile(rows, code).Some?
    ensures var s := PePercentile(rows, code).value;
      && 0.0 <= s.percentile < 100.0
      && s.minPe <= s.currentPe <= s.maxPe
      && (s.percentile == 0.0 <==> s.currentPe == s.minPe)
      && s.currentPe in PeValues(rows, code)
  {
    var vs := PeValues(rows, code);
    var current := vs[|vs| - 1];
    CountBelowSelf(vs, current);
    CountBelowZero(vs, current);
    PercentRange(CountBelow(vs, current), |vs|);
  }

  lemma PercentRange(k: nat, n: nat)
    requires k < n
    ensures 0.0 <= (k as real) / (n as real) * 100.0 < 100.0
    ensures (k as real) / (n as real) * 100.0 == 0.0 <==> k == 0
  {
    ShareBelowOne(k as real, n as real);
    if k != 0 {
      assert (k as real) / (n as real) > 0.0;
    }
  }

  // ---------------------------------------------------------------------------
  // calculate_max_drawdown (lines 451-463)
  // ---------------------------------------------------------------------------

  function RMax(a: real, b: real): real {
    if b > a then b else a
  }

  /** The running peak after `prices[t]`: the greatest of prices[0..t]. */
  function Peak(prices: seq<real>, t: nat): (p: real)
    requires t < |prices|
    ensures forall i :: 0 <= i <= t ==> prices[i] <= p
    ensures exists i :: 0 <= i <= t && prices[i] == p
  {
    if t == 0 then prices[0] else RMax(Peak(prices, t - 1), prices[t])
  }

  /** The drawdown at `t`: the fall from the running peak as a share of it. */
  function DrawdownAt(prices: seq<real>, t: nat): real
    requires t < |prices| && forall i :: 0 <= i < |prices| ==> prices[i] > 0.0
  {
    (Peak(prices, t) - prices[t]) / Peak(prices, t)
  }

  /** The greatest drawdown over prices[0..n), and 0 when none is positive. */
  function MaxDrawdown(prices: seq<real>, n: nat): (dd: real)
    requires n <= |prices| && forall i :: 0 <= i < |prices| ==> prices[i] > 0.0
    ensures dd >= 0.0
    ensures forall t :: 0 <= t < n ==> DrawdownAt(prices, t) <= dd
  {
    if n == 0 then 0.0 else RMax(MaxDrawdown(prices, n - 1), DrawdownAt(prices, n - 1))
  }

  /** `calculate_max_drawdown(prices)`. */
  method CalculateMaxDrawdown(prices: seq<real>) returns (maxDd: real)
    requires forall i :: 0 <= i < |prices| ==> prices[i] > 0.0
    ensures maxDd == MaxDrawdown(prices, |prices|)
  {
    if |prices| == 0 {
      return 0.0;
    }
    var peak := prices[0];
    maxDd := 0.0;
    var t := 0;
    while t < |prices|
      invariant 0 <= t <= |prices|
      invariant peak == if t == 0 then prices[0] else Peak(prices, t - 1)
      invariant maxDd == MaxDrawdown(prices, t)
    {
      var price := prices[t];
      if price > peak {
        peak := price;
      }
      assert peak == Peak(prices, t);
      var dd := (peak - price) / peak;
      if dd > maxDd {
        maxDd := dd;
      }
      t := t + 1;
    }
  }

  /** The maximum drawdown is some day's drawdown (or 0), and it is below 1 since prices stay positive. */
  lemma {:induction false} MaxDrawdownAttained(prices: seq<real>, n: nat)
    requires n <= |prices| && forall i :: 0 <= i < |prices| ==> prices[i] > 0.0
    ensures MaxDrawdown(prices, n) == 0.0 || exists t :: 0 <= t < n && MaxDrawdown(prices, n) == DrawdownAt(prices, t)
    ensures MaxDrawdown(prices, n) < 1.0
  {
    if n > 0 {
      MaxDrawdownAttained(prices, n - 1);
      DrawdownBelowOne(prices, n - 1);
    }
  }

  lemma DrawdownBelowOne(prices: seq<real>, t: nat)
    requires t < |prices| && forall i :: 0 <= i < |prices| ==> prices[i] > 0.0
    ensures 0.0 <= DrawdownAt(prices, t) < 1.0
  {
    var p := Peak(prices, t);
    assert p >= prices[t] > 0.0;
    var d := (p - prices[t]) / p;
    assert DrawdownAt(prices, t) == d;
    ShareBelowOne(p - prices[t], p);
  }

  lemma ShareBelowOne(a: real, p: real)
    requires 0.0 <= a < p
    ensures 0.0 <= a / p < 1.0
  {
  }

  predicate NonDecreasing(prices: seq<real>) {
    forall i, j :: 0 <= i < j < |prices| ==> prices[i] <= prices[j]
  }

  lemma {:induction false} PeakOfRising(prices: seq<real>, t: nat)
    requires t < |prices| && NonDecreasing(prices)
    ensures Peak(prices, t) == prices[t]
  {
    if t > 0 {
      PeakOfRising(prices, t - 1);
      assert prices[t - 1] <= prices[t];
    }
  }

  lemma RisingStep(prices: seq<real>, t: nat)
    requires t < |prices| && forall i :: 0 <= i < |prices| ==> prices[i] > 0.0
    requires NonDecreasing(prices)
    ensures DrawdownAt(prices, t) == 0.0
  {
    PeakOfRising(prices, t);
  }

  /** A price series that never falls has no drawdown. */
  lemma {:induction false} RisingNoDrawdown(prices: seq<real>, n: nat)
    requires n <= |prices| && forall i :: 0 <= i < |prices| ==> prices[i] > 0.0
    requires NonDecreasing(prices)
    ensures MaxDrawdown(prices, n) == 0.0
  {
    if n > 0 {
      RisingNoDrawdown(prices, n - 1);
      RisingStep(prices, n - 1);
    }
  }

  // ---------------------------------------------------------------------------
  // calculate_liquidity_score (lines 593-633)
  // ---------------------------------------------------------------------------

  /** The latest row's inputs; None for a missing column or a NaN. */
  datatype Liquidity = Liquidity(amount: Option<real>, tr: Option<real>, amountTurnover: Option<real>, floatMv: Option<real>)

  datatype LiquidityScore = LiquidityScore(score: real, amountScore: real, turnoverScore: real, marketCapScore: real)

  function RMin(a: real, b: real): real {
    if a <= b then a else b
  }

  /** Trading amount: full marks at 1000 (100M CNY); 50 when missing or not positive. */
  function AmountScore(l: Liquidity): real {
    if l.amount.Some? && l.amount.value > 0.0 then RMin(l.amount.value / 1000.0 * 100.0, 100.0) else 50.0
  }

  /** Turnover rate: full marks at 2%; falls back on amount_turnover, then 50. */
  function TurnoverScore(l: Liquidity): real {
    if l.tr.Some? then RMin(l.tr.value * 50.0, 100.0)
    else if l.amountTurnover.Some? then RMin(l.amountTurnover.value * 50.0, 100.0)
    else 50.0
  }

  /** Float market value: full marks at 50000; 50 when missing or not positive. */
  function MarketCapScore(l: Liquidity): real {
    if l.floatMv.Some? && l.floatMv.value > 0.0 then RMin(l.floatMv.value / 50000.0 * 100.0, 100.0) else 50.0
  }

  /** `calculate_liquidity_score(df, ts_code)` on the sector's rows, latest last; None without rows. */
  function LiquidityOf(rows: seq<Liquidity>): (r: Option<LiquidityScore>)
    ensures r.None? <==> rows == []
  {
    if rows == [] then None
    else
      var l := rows[|rows| - 1];
      var a, t, m := AmountScore(l), TurnoverScore(l), MarketCapScore(l);
      Some(LiquidityScore(a * 0.5 + t * 0.3 + m * 0.2, a, t, m))
  }

  /**
   * Each subscore is at most 100 and is 50 when its input is missing; the
   * amount and market-cap subscores are positive; with a non-negative
   * turnover rate the combined score lies in [0, 100].
   */
  lemma LiquidityBounds(rows: seq<Liquidity>)
    requires rows != []
    ensures var s := LiquidityOf(rows).value; var l := rows[|rows| - 1];
      && s.amountScore <= 100.0 && s.turnoverScore <= 100.0 && s.marketCapScore <= 100.0
      && 0.0 < s.amountScore && 0.0 < s.marketCapScore
      && (l.amount.None? ==> s.amountScore == 50.0)
      && (l.tr.None? && l.amountTurnover.None? ==> s.turnoverScore == 50.0)
      && (l.floatMv.None? ==> s.marketCapScore == 50.0)
      && s.score <= 100.0
      && (s.turnoverScore >= 0.0 ==> 0.0 <= s.score)
  {
  }

  /** The amount subscore grows with the amount until it reaches the cap at 1000. */
  lemma AmountScoreCap(l: Liquidity)
    requires l.amount.Some? && l.amount.value > 0.0
    ensures l.amount.value >= 1000.0 ==> AmountScore(l) == 100.0
    ensures l.amount.value < 1000.0 ==> AmountScore(l) == l.amount.value / 10.0
  {
  }
}
