/**
 * Two pure helpers of the finance dashboard's loader
 * (dashboard/finance_data_loader.py): the de-duplication of financial
 * reports by end date, and the simplified Piotroski F-score.
 *
 * Frames are the `Row` maps of `Common`; the numeric indicators Piotroski
 * reads are `real`s, a missing or non-numeric one being absent.
 */
module FinanceLoader {
  import opened Common
  import opened Calendar
  import Db

  const EndDateCol := "end_date"
  const AnnDateCol := "ann_date"
  const UpdateFlagCol := "update_flag"

  // ---------------------------------------------------------------------------
  // _dedup_by_end_date (lines 41-59)
  // ---------------------------------------------------------------------------

  /** `.fillna("0").astype(str).str.replace("[^0-9]", "0", regex=True)`. */
  function FlagDigits(v: Value): (s: string)
    ensures AllDigits(s)
  {
    if v.None? then "0"
    else seq(|v.value|, i requires 0 <= i < |v.value| => if IsDigit(v.value[i]) then v.value[i] else '0')
  }

  /** `.astype(int)` of the cleaned flag; None where it raises (the empty string). */
  function FlagRank(v: Value): Option<nat> {
    var s := FlagDigits(v);
    if s == [] then None else Some(DigitsValue(s))
  }

  /** A rank that a null flag, a flag without digits and a missing column all put at 0. */
  lemma FlagRankMeaning(v: Value)
    ensures v.None? ==> FlagRank(v) == Some(0)
    ensures FlagRank(v).None? <==> v == Some("")
    ensures v.Some? && v.value != [] && AllDigits(v.value) ==> FlagRank(v) == Some(DigitsValue(v.value))
    ensures v.Some? && v.value != [] && (forall i :: 0 <= i < |v.value| ==> !IsDigit(v.value[i])) ==> FlagRank(v) == Some(0)
  {
    if v.None? {
      assert FlagDigits(v) == "0";
      assert "0"[..0] == [];
    }
    if v.Some? && v.value != [] && AllDigits(v.value) {
      assert FlagDigits(v) == v.value;
    }
    if v.Some? && v.value != [] && forall i :: 0 <= i < |v.value| ==> !IsDigit(v.value[i]) {
      ZerosValue(FlagDigits(v));
    }
  }

  lemma {:induction false} ZerosValue(s: string)
    requires forall i :: 0 <= i < |s| ==> s[i] == '0'
    ensures AllDigits(s) && DigitsValue(s) == 0
  {
    if s != [] {
      ZerosValue(s[..|s| - 1]);
    }
  }

  /** `_parse_yyyymmdd` on one cell: `to_datetime(..., errors="coerce")`, NaT (None) for null or malformed. */
  function DateOf(v: Value): Option<Ymd> {
    if v.None? then None else Parse(v.value)
  }

  /** Which of the optional columns the frame has. */
  datatype Columns = Columns(hasFlag: bool, hasAnn: bool)

  function EndKey(r: Row): Option<Ymd> {
    DateOf(Get(r, EndDateCol))
  }

  /** `_ann_date_dt`: NaT for every row when there is no ann_date column. */
  function AnnKey(r: Row, cols: Columns): Option<Ymd> {
    if cols.hasAnn then DateOf(Get(r, AnnDateCol)) else None
  }

  /** `_update_flag_rank`: 0 for every row when there is no update_flag column. */
  function RankKey(r: Row, cols: Columns): nat {
    if cols.hasFlag && FlagRank(Get(r, UpdateFlagCol)).Some? then FlagRank(Get(r, UpdateFlagCol)).value else 0
  }

  /** Descending date order with NaT last: `a` comes strictly before `b`. */
  predicate Later(a: Option<Ymd>, b: Option<Ymd>) {
    a.Some? && (b.None? || Before(b.value, a.value))
  }

  /** `a` sorts strictly before `b` under `sort_values([end, ann, rank], ascending=False)`. */
  predicate Ahead(a: Row, b: Row, cols: Columns) {
    || Later(EndKey(a), EndKey(b))
    || (EndKey(a) == EndKey(b) && Later(AnnKey(a, cols), AnnKey(b, cols)))
    || (EndKey(a) == EndKey(b) && AnnKey(a, cols) == AnnKey(b, cols) && RankKey(a, cols) > RankKey(b, cols))
  }

  lemma LaterTrans(a: Option<Ymd>, b: Option<Ymd>, c: Option<Ymd>)
    requires Later(a, b) && Later(b, c)
    ensures Later(a, c)
  {
    if c.Some? {
      BeforeTrans(c.value, b.value, a.value);
    }
  }

  lemma AheadTrans(a: Row, b: Row, c: Row, cols: Columns)
    requires Ahead(a, b, cols) && Ahead(b, c, cols)
    ensures Ahead(a, c, cols)
  {
    if Later(EndKey(a), EndKey(b)) && Later(EndKey(b), EndKey(c)) {
      LaterTrans(EndKey(a), EndKey(b), EndKey(c));
    }
    if EndKey(a) == EndKey(b) == EndKey(c) && Later(AnnKey(a, cols), AnnKey(b, cols)) && Later(AnnKey(b, cols), AnnKey(c, cols)) {
      LaterTrans(AnnKey(a, cols), AnnKey(b, cols), AnnKey(c, cols));
    }
  }

  /** No row sorts strictly before the first one, and the rest is sorted likewise. */
  predicate Sorted(f: Frame, cols: Columns) {
    f == [] || ((forall y :: y in f[1..] ==> !Ahead(y, f[0], cols)) && Sorted(f[1..], cols))
  }

  /** Insert `x` after every row not sorting strictly behind it (so after its ties). */
  function Insert(x: Row, f: Frame, cols: Columns): (r: Frame)
    ensures multiset(r) == multiset(f) + multiset{x}
  {
    if f == [] then [x]
    else if Ahead(x, f[0], cols) then [x] + f
    else
      assert f == [f[0]] + f[1..];
      [f[0]] + Insert(x, f[1..], cols)
  }

  /** The stable sort of `sort_values(..., ascending=[False, False, False])` on three keys. */
  function SortRows(f: Frame, cols: Columns): (r: Frame)
    ensures multiset(r) == multiset(f)
  {
    if f == [] then []
    else
      assert f == f[..|f| - 1] + [f[|f| - 1]];
      Insert(f[|f| - 1], SortRows(f[..|f| - 1], cols), cols)
  }

  lemma {:induction false} InsertSorted(x: Row, f: Frame, cols: Columns)
    requires Sorted(f, cols)
    ensures Sorted(Insert(x, f, cols), cols)
  {
    if f != [] {
      if Ahead(x, f[0], cols) {
        forall y | y in f ensures !Ahead(y, x, cols) {
          if Ahead(y, x, cols) {
            AheadTrans(y, x, f[0], cols);
          }
        }
        assert ([x] + f)[1..] == f;
      } else {
        InsertSorted(x, f[1..], cols);
        var r := [f[0]] + Insert(x, f[1..], cols);
        assert r[1..] == Insert(x, f[1..], cols);
        forall y | y in r[1..] ensures !Ahead(y, f[0], cols) {
          assert y in multiset(Insert(x, f[1..], cols));
        }
      }
    }
  }

  /** The sort puts the rows in order and loses or adds none. */
  lemma {:induction false} SortRowsSorted(f: Frame, cols: Columns)
    ensures Sorted(SortRows(f, cols), cols)
    ensures multiset(SortRows(f, cols)) == multiset(f)
  {
    if f != [] {
      SortRowsSorted(f[..|f| - 1], cols);
      InsertSorted(f[|f| - 1], SortRows(f[..|f| - 1], cols), cols);
    }
  }

  /** The frame's two optional columns. */
  function ColumnsFor(df: Frame): Columns {
    Columns(UpdateFlagCol in Db.ColumnsOf(df), AnnDateCol in Db.ColumnsOf(df))
  }

  /** `.astype(int)` raises on an update_flag cell that is the empty string. */
  predicate RankRaises(df: Frame) {
    UpdateFlagCol in Db.ColumnsOf(df) && exists r :: r in df && FlagRank(Get(r, UpdateFlagCol)).None?
  }

  /** `_dedup_by_end_date(df)`; None where it raises. */
  function DedupByEndDate(df: Frame): (out: Option<Frame>)
    ensures out.Some? ==> forall x :: x in out.value ==> x in df
  {
    if df == [] || EndDateCol !in Db.ColumnsOf(df) then Some(df)
    else if RankRaises(df) then None
    else
      var sorted := SortRows(df, ColumnsFor(df));
      assert forall x :: x in sorted ==> x in df by {
        assert multiset(sorted) == multiset(df);
        forall x | x in sorted ensures x in df {
          assert x in multiset(sorted);
        }
      }
      Some(DedupFirst(sorted, [EndDateCol]))
  }

  /** A sorted frame stays sorted when rows are dropped. */
  lemma {:induction false} FilterSortedRows(f: Frame, cols: Columns, p: Row -> bool)
    requires Sorted(f, cols)
    ensures Sorted(Filter(f, p), cols)
  {
    if f != [] {
      FilterSortedRows(f[1..], cols, p);
      if p(f[0]) {
        assert Filter(f, p)[1..] == Filter(f[1..], p);
      } else {
        assert Filter(f, p) == Filter(f[1..], p);
      }
    }
  }

  /** Keeping the first row of each end date keeps the order, and keeps for each end date a row no other row with that end date sorts before. */
  lemma {:induction false} DedupFirstBest(f: Frame, cols: Columns, x: Row, y: Row)
    requires Sorted(f, cols)
    requires x in DedupFirst(f, [EndDateCol]) && y in f && Get(y, EndDateCol) == Get(x, EndDateCol)
    ensures !Ahead(y, x, cols)
    decreases |f|
  {
    var k := Key(f[0], [EndDateCol]);
    var tail := Filter(f[1..], (z: Row) => Key(z, [EndDateCol]) != k);
    assert DedupFirst(f, [EndDateCol]) == [f[0]] + DedupFirst(tail, [EndDateCol]);
    if x == f[0] {
      if y != f[0] {
        assert y in f[1..] by { assert f == [f[0]] + f[1..]; }
      }
    } else {
      assert x in DedupFirst(tail, [EndDateCol]);
      assert x in tail;
      assert Key(x, [EndDateCol]) == [Get(x, EndDateCol)];
      assert Key(y, [EndDateCol]) == Key(x, [EndDateCol]);
      assert y != f[0];
      assert y in f[1..] by { assert f == [f[0]] + f[1..]; }
      FilterSortedRows(f[1..], cols, (z: Row) => Key(z, [EndDateCol]) != k);
      DedupFirstBest(tail, cols, x, y);
    }
  }

  lemma {:induction false} DedupFirstSorted(f: Frame, cols: Columns)
    requires Sorted(f, cols)
    ensures Sorted(DedupFirst(f, [EndDateCol]), cols)
    decreases |f|
  {
    if f != [] {
      var k := Key(f[0], [EndDateCol]);
      var tail := Filter(f[1..], (z: Row) => Key(z, [EndDateCol]) != k);
      var r := DedupFirst(f, [EndDateCol]);
      assert r == [f[0]] + DedupFirst(tail, [EndDateCol]);
      FilterSortedRows(f[1..], cols, (z: Row) => Key(z, [EndDateCol]) != k);
      DedupFirstSorted(tail, cols);
      assert r[1..] == DedupFirst(tail, [EndDateCol]);
      forall y | y in r[1..] ensures !Ahead(y, f[0], cols) {
        assert y in tail;
      }
    }
  }

  lemma {:induction false} SortedPairs(f: Frame, cols: Columns)
    requires Sorted(f, cols)
    ensures forall i, j :: 0 <= i < j < |f| ==> !Ahead(f[j], f[i], cols)
  {
    if f != [] {
      SortedPairs(f[1..], cols);
      forall i, j | 0 <= i < j < |f| ensures !Ahead(f[j], f[i], cols) {
        if i == 0 {
          assert f[j] in f[1..];
        } else {
          assert f[i] == f[1..][i - 1] && f[j] == f[1..][j - 1];
        }
      }
    }
  }

  /** An empty frame, or one without end_date, comes back unchanged; an empty update_flag cell raises. */
  lemma DedupByEndDateCases(df: Frame)
    ensures df == [] || EndDateCol !in Db.ColumnsOf(df) ==> DedupByEndDate(df) == Some(df)
    ensures DedupByEndDate(df).None? <==>
      (df != [] && EndDateCol in Db.ColumnsOf(df) && UpdateFlagCol in Db.ColumnsOf(df) && exists r :: r in df && Get(r, UpdateFlagCol) == Some(""))
  {
    forall r | r in df ensures FlagRank(Get(r, UpdateFlagCol)).None? <==> Get(r, UpdateFlagCol) == Some("") {
      FlagRankMeaning(Get(r, UpdateFlagCol));
    }
  }

  /**
   * One row per end date: the output rows are input rows with pairwise
   * distinct end dates, every input end date is kept, and the row kept for
   * an end date has no rival with that end date and a later announcement,
   * or the same announcement and a higher update_flag rank.
   */
  lemma DedupByEndDateBest(df: Frame, x: Row, y: Row)
    requires DedupByEndDate(df).Some? && df != [] && EndDateCol in Db.ColumnsOf(df)
    requires x in DedupByEndDate(df).value && y in df && Get(y, EndDateCol) == Get(x, EndDateCol)
    ensures x in df
    ensures !Later(AnnKey(y, ColumnsFor(df)), AnnKey(x, ColumnsFor(df)))
    ensures AnnKey(y, ColumnsFor(df)) == AnnKey(x, ColumnsFor(df)) ==> RankKey(y, ColumnsFor(df)) <= RankKey(x, ColumnsFor(df))
  {
    var cols := ColumnsFor(df);
    var sorted := SortRows(df, cols);
    SortRowsSorted(df, cols);
    assert y in multiset(sorted);
    DedupFirstBest(sorted, cols, x, y);
  }

  lemma DedupByEndDateUnique(df: Frame)
    requires DedupByEndDate(df).Some? && df != [] && EndDateCol in Db.ColumnsOf(df)
    ensures KeysUnique(DedupByEndDate(df).value, [EndDateCol])
    ensures forall r :: r in df ==> HasKey(DedupByEndDate(df).value, [EndDateCol], Key(r, [EndDateCol]))
  {
    var sorted := SortRows(df, ColumnsFor(df));
    DedupFirstUnique(sorted, [EndDateCol]);
    forall r | r in df ensures HasKey(DedupByEndDate(df).value, [EndDateCol], Key(r, [EndDateCol])) {
      assert r in multiset(sorted);
      DedupFirstKeepsKeys(sorted, [EndDateCol], Key(r, [EndDateCol]));
    }
  }

  /** The output is newest end date first, unparsable end dates last. */
  lemma DedupByEndDateOrder(df: Frame)
    requires DedupByEndDate(df).Some? && df != [] && EndDateCol in Db.ColumnsOf(df)
    ensures forall i, j :: 0 <= i < j < |DedupByEndDate(df).value| ==>
      !Later(EndKey(DedupByEndDate(df).value[j]), EndKey(DedupByEndDate(df).value[i]))
  {
    var cols := ColumnsFor(df);
    SortRowsSorted(df, cols);
    DedupFirstSorted(SortRows(df, cols), cols);
    SortedPairs(DedupByEndDate(df).value, cols);
  }

  // ---------------------------------------------------------------------------
  // calculate_piotroski_score (lines 341-396)
  // ---------------------------------------------------------------------------

  /** One indicator report: its sort key (end_date_dt or end_date) and its numeric indicators. */
  datatype Report = Report(sortKey: Option<string>, metrics: map<string, real>)

  /** Descending order with nulls last: `a` sorts strictly before `b`. */
  predicate KeyAhead(a: Option<string>, b: Option<string>) {
    a.Some? && (b.None? || StrLt(b.value, a.value))
  }

  /**
   * The index, below `n` and other than `skip`, of the first report with the
   * greatest sort key; -1 when there is none. `sort_values(..., ascending=False)`
   * puts such a report first.
   */
  function Top(rs: seq<Report>, skip: int, n: nat): (k: int)
    requires n <= |rs|
    ensures -1 <= k < n && (k >= 0 ==> k != skip)
    ensures (n >= 2 || (n == 1 && skip != 0)) ==> k >= 0
  {
    if n == 0 then -1
    else
      var k := Top(rs, skip, n - 1);
      if n - 1 == skip then k
      else if k < 0 || KeyAhead(rs[n - 1].sortKey, rs[k].sortKey) then n - 1
      else k
  }

  lemma {:induction false} TopIsGreatest(rs: seq<Report>, skip: int, n: nat)
    requires n <= |rs|
    ensures var k := Top(rs, skip, n);
      k >= 0 ==> forall j :: 0 <= j < n && j != skip ==> !KeyAhead(rs[j].sortKey, rs[k].sortKey)
  {
    if n > 0 {
      TopIsGreatest(rs, skip, n - 1);
      var k := Top(rs, skip, n - 1);
      if n - 1 != skip && (k < 0 || KeyAhead(rs[n - 1].sortKey, rs[k].sortKey)) {
        forall j | 0 <= j < n && j != skip ensures !KeyAhead(rs[j].sortKey, rs[n - 1].sortKey) {
          if j < n - 1 && KeyAhead(rs[j].sortKey, rs[n - 1].sortKey) {
            var a, b, c := rs[j].sortKey, rs[n - 1].sortKey, rs[k].sortKey;
            if c.Some? {
              StrLtTrans(c.value, b.value, a.value);
            }
          }
        }
      }
    }
  }

  /** Which of the nine criteria hold. */
  datatype Scores = Scores(
    roaPositive: nat, ocfPositive: nat, roaImproving: nat, ocfGtNi: nat, leverageDown: nat,
    liquidityUp: nat, noDilution: nat, marginUp: nat, turnoverUp: nat)

  /** `{"total": ..., "details": ...}`: no total and no details for fewer than two reports. */
  datatype FScore = FScore(total: Option<nat>, details: Option<Scores>)

  function Bit(b: bool): nat {
    if b then 1 else 0
  }

  /** `latest > 0` with both operands present (`pd.notna`). */
  predicate Positive(latest: Report, m: string) {
    m in latest.metrics && latest.metrics[m] > 0.0
  }

  /** `latest > prior` on one indicator, both present. */
  predicate Rose(latest: Report, prior: Report, m: string) {
    m in latest.metrics && m in prior.metrics && latest.metrics[m] > prior.metrics[m]
  }

  predicate Fell(latest: Report, prior: Report, m: string) {
    m in latest.metrics && m in prior.metrics && latest.metrics[m] < prior.metrics[m]
  }

  function Score(latest: Report, prior: Report): Scores {
    Scores(
      Bit(Positive(latest, "roa")),
      Bit(Positive(latest, "ocf_to_or")),
      Bit(Rose(latest, prior, "roa")),
      Bit("ocf_to_profit" in latest.metrics && latest.metrics["ocf_to_profit"] > 100.0),
      Bit(Fell(latest, prior, "debt_to_assets")),
      Bit(Rose(latest, prior, "current_ratio")),
      1,
      Bit(Rose(latest, prior, "grossprofit_margin")),
      Bit(Rose(latest, prior, "assets_turn")))
  }

  /** `sum(scores.values())`, in the order the dictionary is filled. */
  function Total(s: Scores): nat {
    s.roaPositive + s.ocfPositive + s.roaImproving + s.ocfGtNi + s.leverageDown
    + s.liquidityUp + s.noDilution + s.marginUp + s.turnoverUp
  }

  /** `calculate_piotroski_score(df_ind, ...)`: the newest report against the one before it. */
  function Piotroski(rs: seq<Report>): (f: FScore)
    ensures (f.total == None) <==> |rs| < 2
    ensures f.details.Some? <==> f.total.Some?
  {
    if |rs| < 2 then FScore(None, None)
    else
      var latest := Top(rs, -1, |rs|);
      var prior := Top(rs, latest, |rs|);
      var s := Score(rs[latest], rs[prior]);
      FScore(Some(Total(s)), Some(s))
  }

  /**
   * With two or more reports the total counts nine 0/1 criteria, one of
   * which (no dilution) always holds, so it lies in 1..9; it reaches 9
   * exactly when every criterion holds.
   */
  lemma PiotroskiBounds(rs: seq<Report>)
    requires |rs| >= 2
    ensures var f := Piotroski(rs);
      && 1 <= f.total.value <= 9
      && f.details.value.noDilution == 1
      && (f.total.value == 9 <==> Score(rs[Top(rs, -1, |rs|)], rs[Top(rs, Top(rs, -1, |rs|), |rs|)]) == Scores(1, 1, 1, 1, 1, 1, 1, 1, 1))
  {
  }

  /** The two reports compared are the newest and the newest of the rest. */
  lemma PiotroskiCompares(rs: seq<Report>)
    requires |rs| >= 2
    ensures var latest, prior := Top(rs, -1, |rs|), Top(rs, Top(rs, -1, |rs|), |rs|);
      && 0 <= latest < |rs| && 0 <= prior < |rs| && latest != prior
      && (forall j :: 0 <= j < |rs| ==> !KeyAhead(rs[j].sortKey, rs[latest].sortKey))
      && (forall j :: 0 <= j < |rs| && j != latest ==> !KeyAhead(rs[j].sortKey, rs[prior].sortKey))
  {
    TopIsGreatest(rs, -1, |rs|);
    var latest := Top(rs, -1, |rs|);
    assert 0 != latest || 1 != latest;
    TopIsGreatest(rs, latest, |rs|);
  }

  /** A criterion whose indicator is missing from a report it reads scores 0. */
  lemma MissingScoresZero(latest: Report, prior: Report)
    ensures "roa" !in latest.metrics ==> Score(latest, prior).roaPositive == 0 && Score(latest, prior).roaImproving == 0
    ensures "roa" !in prior.metrics ==> Score(latest, prior).roaImproving == 0
    ensures "ocf_to_or" !in latest.metrics ==> Score(latest, prior).ocfPositive == 0
    ensures "ocf_to_profit" !in latest.metrics ==> Score(latest, prior).ocfGtNi == 0
    ensures "debt_to_assets" !in latest.metrics || "debt_to_assets" !in prior.metrics ==> Score(latest, prior).leverageDown == 0
    ensures "current_ratio" !in latest.metrics || "current_ratio" !in prior.metrics ==> Score(latest, prior).liquidityUp == 0
    ensures "grossprofit_margin" !in latest.metrics || "grossprofit_margin" !in prior.metrics ==> Score(latest, prior).marginUp == 0
    ensures "assets_turn" !in latest.metrics || "assets_turn" !in prior.metrics ==> Score(latest, prior).turnoverUp == 0
  {
  }

  /** Two reports without indicators score only the no-dilution point. */
  lemma EmptyReportsScoreOne(rs: seq<Report>)
    requires |rs| >= 2 && forall i :: 0 <= i < |rs| ==> rs[i].metrics == map[]
    ensures Piotroski(rs).total == Some(1)
  {
    var latest := Top(rs, -1, |rs|);
    var prior := Top(rs, latest, |rs|);
    assert rs[latest].metrics == map[] && rs[prior].metrics == map[];
  }
}
