/**
 * The repair side of `DataValidator` in scripts/validate_comprehensive.py:
 * the anti-join inserts (`_insert_daily`, `_insert_suspend`), the per-date
 * API repair (`fix_with_api`) and the yearly suspension backfill
 * (`fix_suspend_by_range`).
 *
 * The stock and events databases are one table namespace here (`daily`
 * lives in the first, `suspend_d` in the second; the names do not clash).
 * The scan's CSV files are a map from path to the gap details written there.
 * The `daily`/`suspend_d` API calls are oracles that give a frame or raise
 * (`None`); sleeps are left out.
 */
module ComprehensiveRepair {
  import opened Common
  import opened Db
  import opened Remote
  import Scan = ValidateComprehensive

  const DailyColumns: seq<string> :=
    ["ts_code", "trade_date", "open", "high", "low", "close", "pre_close", "change", "pct_chg", "vol", "amount"]
  const SuspendColumns: seq<string> := ["ts_code", "trade_date", "suspend_timing", "suspend_type"]

  // ---------------------------------------------------------------------------
  // Anti-join inserts (lines 408-484)
  // ---------------------------------------------------------------------------

  function KeyOf(r: Row): (Value, Value) {
    (Get(r, "ts_code"), Get(r, "trade_date"))
  }

  /** The values `row.get(c)` written for the insert's column list. */
  function Project(r: Row, cols: seq<string>): Row {
    map c | c in cols :: Get(r, c)
  }

  /** Does a stored row share `x`'s code and date (both non-null)? */
  predicate StoredMatch(stored: Frame, x: Row) {
    exists r :: r in stored && KeyOf(r).0.Some? && KeyOf(r).1.Some? && KeyOf(r) == KeyOf(x)
  }

  function CodesIn(df: Frame): set<Value> {
    set x | x in df :: Get(x, "ts_code")
  }

  function DatesIn(df: Frame): set<Value> {
    set x | x in df :: Get(x, "trade_date")
  }

  /** `existing_set`: the stored keys whose date and code occur in the frame (a NULL never matches `IN`). */
  function ExistingKeys(stored: Frame, df: Frame): set<(Value, Value)> {
    set r | r in stored && KeyOf(r).0.Some? && KeyOf(r).1.Some? && KeyOf(r).0 in CodesIn(df) && KeyOf(r).1 in DatesIn(df)
      :: KeyOf(r)
  }

  /** The query restricted to the frame's codes and dates loses nothing: it is the full anti-join. */
  lemma ExistingScope(stored: Frame, df: Frame, x: Row)
    requires x in df
    ensures KeyOf(x) in ExistingKeys(stored, df) <==> StoredMatch(stored, x)
  {
    if StoredMatch(stored, x) {
      var r :| r in stored && KeyOf(r).0.Some? && KeyOf(r).1.Some? && KeyOf(r) == KeyOf(x);
      assert KeyOf(r).0 in CodesIn(df) && KeyOf(r).1 in DatesIn(df);
    }
  }

  predicate Fresh(stored: Frame, df: Frame, x: Row) {
    KeyOf(x) !in ExistingKeys(stored, df)
  }

  function ProjectAll(f: Frame, cols: seq<string>): (p: Frame)
    ensures |p| == |f| && forall i :: 0 <= i < |f| ==> p[i] == Project(f[i], cols)
  {
    seq(|f|, i requires 0 <= i < |f| => Project(f[i], cols))
  }

  /** `to_insert`: the frame's rows whose key is not stored yet, in frame order, projected. */
  function ToInsert(stored: Frame, df: Frame, cols: seq<string>): Frame {
    ProjectAll(Filter(df, x => Fresh(stored, df, x)), cols)
  }

  /** A row is written exactly when it is the projection of a frame row that no stored row matches. */
  lemma ToInsertExact(stored: Frame, df: Frame, cols: seq<string>, y: Row)
    ensures y in ToInsert(stored, df, cols) <==> exists x :: x in df && !StoredMatch(stored, x) && y == Project(x, cols)
  {
    var kept := Filter(df, x => Fresh(stored, df, x));
    if y in ToInsert(stored, df, cols) {
      var i :| 0 <= i < |kept| && ToInsert(stored, df, cols)[i] == y;
      assert kept[i] in kept;
      ExistingScope(stored, df, kept[i]);
    }
    if x :| x in df && !StoredMatch(stored, x) && y == Project(x, cols) {
      ExistingScope(stored, df, x);
      assert x in kept;
      var i :| 0 <= i < |kept| && kept[i] == x;
      assert ToInsert(stored, df, cols)[i] == y;
    }
  }

  /**
   * One insert into a table: an empty frame returns at once; a null code
   * makes the code list join raise; otherwise the new rows are appended in
   * one transaction, which fails as a whole when it breaks the table's
   * unique index. None when the call raises.
   */
  function InsertInto(t: Table, df: Frame, cols: seq<string>): Option<Table> {
    if df == [] then Some(t)
    else if exists x :: x in df && Get(x, "ts_code").None? then None
    else
      var add := ToInsert(t.rows, df, cols);
      if add == [] then Some(t)
      else if !IndexHolds(t.rows + add, t.index) then None
      else Some(t.(rows := t.rows + add))
  }

  /** `_insert_daily` / `_insert_suspend` on table `name`; a missing table makes the query raise. */
  function Insert(tables: map<string, Table>, name: string, df: Frame, cols: seq<string>): Option<map<string, Table>> {
    if df == [] then Some(tables)
    else if name !in tables then None
    else
      match InsertInto(tables[name], df, cols)
      case None => None
      case Some(t) => Some(tables[name := t])
  }

  /** `before` is a prefix of `after`. */
  predicate Extends(before: Frame, after: Frame) {
    |before| <= |after| && after[..|before|] == before
  }

  /** Every table of `before` is still there, its stored rows untouched, possibly with rows appended. */
  predicate Grows(before: map<string, Table>, after: map<string, Table>) {
    before.Keys <= after.Keys && forall n :: n in before ==> Extends(before[n].rows, after[n].rows)
  }

  lemma GrowsTrans(a: map<string, Table>, b: map<string, Table>, c: map<string, Table>)
    requires Grows(a, b) && Grows(b, c)
    ensures Grows(a, c)
  {
    forall n | n in a ensures Extends(a[n].rows, c[n].rows) {
      assert c[n].rows[..|b[n].rows|][..|a[n].rows|] == c[n].rows[..|a[n].rows|];
    }
  }

  /** An insert never alters or removes a stored row and touches no other table. */
  lemma InsertKeepsRows(tables: map<string, Table>, name: string, df: Frame, cols: seq<string>)
    requires Insert(tables, name, df, cols).Some?
    ensures var after := Insert(tables, name, df, cols).value;
      && Grows(tables, after) && after.Keys == tables.Keys
      && (forall n :: n in tables && n != name ==> after[n] == tables[n])
      && (name in tables ==> after[name].columns == tables[name].columns && after[name].index == tables[name].index)
  {
    var after := Insert(tables, name, df, cols).value;
    if name in tables {
      assert Extends(tables[name].rows, after[name].rows);
    }
  }

  /**
   * After a successful insert every frame row with a non-null code and date
   * has a stored match, so inserting the same frame again writes nothing.
   */
  lemma InsertIdempotent(tables: map<string, Table>, name: string, df: Frame, cols: seq<string>)
    requires "ts_code" in cols && "trade_date" in cols
    requires Insert(tables, name, df, cols).Some? && name in tables
    requires forall x :: x in df ==> KeyOf(x).0.Some? && KeyOf(x).1.Some?
    ensures ToInsert(Insert(tables, name, df, cols).value[name].rows, df, cols) == []
  {
    var after := Insert(tables, name, df, cols).value[name].rows;
    forall x | x in df
      ensures StoredMatch(after, x)
    {
      if !StoredMatch(tables[name].rows, x) {
        ToInsertExact(tables[name].rows, df, cols, Project(x, cols));
        var add := ToInsert(tables[name].rows, df, cols);
        assert Project(x, cols) in add;
        assert KeyOf(Project(x, cols)) == KeyOf(x);
        assert Project(x, cols) in after;
      } else {
        var r :| r in tables[name].rows && KeyOf(r).0.Some? && KeyOf(r).1.Some? && KeyOf(r) == KeyOf(x);
        assert r in after;
      }
    }
    if ToInsert(after, df, cols) != [] {
      var y := ToInsert(after, df, cols)[0];
      ToInsertExact(after, df, cols, y);
      assert false;
    }
  }

  /** The `for _, row in df.iterrows()` filter. */
  method CollectNew(stored: Frame, df: Frame, cols: seq<string>) returns (toInsert: Frame)
    ensures toInsert == ToInsert(stored, df, cols)
  {
    var existing := ExistingKeys(stored, df);
    toInsert := [];
    var i := 0;
    while i < |df|
      invariant 0 <= i <= |df|
      invariant toInsert == ProjectAll(Filter(df[..i], x => Fresh(stored, df, x)), cols)
    {
      ghost var prior := toInsert;
      if KeyOf(df[i]) !in existing {
        toInsert := toInsert + [Project(df[i], cols)];
      }
      CollectSnoc(stored, df, cols, i, prior, toInsert);
      i := i + 1;
    }
    assert df[..i] == df;
  }

  /** One more frame row, seen from the rows collected so far. */
  lemma CollectSnoc(stored: Frame, df: Frame, cols: seq<string>, i: nat, prior: Frame, after: Frame)
    requires i < |df|
    requires prior == ProjectAll(Filter(df[..i], x => Fresh(stored, df, x)), cols)
    requires after == prior + if Fresh(stored, df, df[i]) then [Project(df[i], cols)] else []
    ensures after == ProjectAll(Filter(df[..i + 1], x => Fresh(stored, df, x)), cols)
  {
    var p := x => Fresh(stored, df, x);
    FilterConcat(df[..i], [df[i]], p);
    assert df[..i + 1] == df[..i] + [df[i]];
    ProjectAllConcat(Filter(df[..i], p), Filter([df[i]], p), cols);
  }

  lemma ProjectAllConcat(a: Frame, b: Frame, cols: seq<string>)
    ensures ProjectAll(a + b, cols) == ProjectAll(a, cols) + ProjectAll(b, cols)
  {
    assert forall i :: 0 <= i < |a| + |b| ==> (a + b)[i] == if i < |a| then a[i] else b[i - |a|];
  }

  /** `_insert_daily` / `_insert_suspend`: true when the call returns, false when it raises. */
  method InsertMissing(db: Database, name: string, df: Frame, cols: seq<string>) returns (ok: bool)
    modifies db
    ensures ok <==> Insert(old(db.tables), name, df, cols).Some?
    ensures db.tables == if ok then Insert(old(db.tables), name, df, cols).value else old(db.tables)
    ensures db.meta == old(db.meta)
  {
    if df == [] {
      return true;
    }
    if name !in db.tables {
      return false;
    }
    if exists x :: x in df && Get(x, "ts_code").None? {
      return false;
    }
    var t := db.tables[name];
    var add := CollectNew(t.rows, df, cols);
    if add == [] {
      return true;
    }
    if !IndexHolds(t.rows + add, t.index) {
      return false;
    }
    db.tables := db.tables[name := t.(rows := t.rows + add)];
    return true;
  }

  // ---------------------------------------------------------------------------
  // The per-date API repair (lines 356-406)
  // ---------------------------------------------------------------------------

  const GapsCsv := "./tmp/validation_gaps.csv"
  const MatrixCsv := "./tmp/validation_matrix.csv"

  /** The scan's output: the gap matrix is written only when there are gaps. */
  function ScanOutput(files: map<string, seq<Scan.Gap>>, gaps: seq<Scan.Gap>): map<string, seq<Scan.Gap>> {
    if gaps == [] then files else files[MatrixCsv := gaps]
  }

  /** The two API calls of one date: a frame, or None when the call raises. */
  datatype FixApi = FixApi(daily: string -> Option<Frame>, suspend: string -> Option<Frame>)

  function GapDateList(gaps: seq<Scan.Gap>): (ds: seq<string>)
    ensures |ds| == |gaps| && forall i :: 0 <= i < |gaps| ==> ds[i] == gaps[i].date
  {
    seq(|gaps|, i requires 0 <= i < |gaps| => gaps[i].date)
  }

  /** Adjacent duplicates of a sorted list dropped. */
  function Squeeze(s: seq<string>): (r: seq<string>)
    requires SortedStrs(s)
    ensures forall x :: x in r <==> x in s
    ensures StrictlyAscending(r)
  {
    if |s| <= 1 then s
    else
      var rest := Squeeze(s[1..]);
      assert forall x :: x in s[1..] ==> StrLe(s[0], x);
      if s[0] == s[1] then rest
      else
        assert s[1] in s[1..];
        forall y | y in rest ensures StrLt(s[0], y) {
          if y == s[0] {
            assert y in s[1..];
            var k :| 1 <= k < |s| && s[k] == y;
            StrLeAntisym(s[1], s[0]);
          }
        }
        [s[0]] + rest
  }

  /** `df['trade_date'].unique()` sorted: every gap date once, ascending. */
  function GapDates(gaps: seq<Scan.Gap>): (ds: seq<string>)
    ensures forall d :: d in ds <==> exists g :: g in gaps && g.date == d
    ensures StrictlyAscending(ds)
  {
    var all := GapDateList(gaps);
    var sorted := Sort(all);
    assert forall x :: x in sorted <==> x in multiset(sorted);
    assert forall x :: x in all <==> x in multiset(all);
    forall d | (exists g :: g in gaps && g.date == d) ensures d in all {
      var g :| g in gaps && g.date == d;
      var i :| 0 <= i < |gaps| && gaps[i] == g;
      assert all[i] == d;
    }
    Squeeze(sorted)
  }

  /** `target_codes`: the codes with a gap on `d`. */
  function Targets(gaps: seq<Scan.Gap>, d: string): set<Value> {
    set g | g in gaps && g.date == d :: Some(g.code)
  }

  function OnlyTargets(f: Frame, targets: set<Value>): (r: Frame)
    ensures forall x :: x in r <==> x in f && Get(x, "ts_code") in targets
  {
    Filter(f, x => Get(x, "ts_code") in targets)
  }

  /**
   * One date of the repair: the day's quotes of the target codes, then their
   * suspensions. An exception ends the date and keeps what was written.
   */
  function FixDate(tables: map<string, Table>, d: string, targets: set<Value>, api: FixApi): map<string, Table> {
    match api.daily(d)
    case None => tables
    case Some(df) =>
      var daily := OnlyTargets(df, targets);
      match (if daily == [] then Some(tables) else Insert(tables, "daily", daily, DailyColumns))
      case None => tables
      case Some(t) =>
        match api.suspend(d)
        case None => t
        case Some(sf) =>
          var susp := OnlyTargets(sf, targets);
          if susp == [] then t
          else
            match Insert(t, "suspend_d", susp, SuspendColumns)
            case None => t
            case Some(t2) => t2
  }

  /** The repair over the dates `ds` of the gap list, in order. */
  function FixLoop(tables: map<string, Table>, ds: seq<string>, gaps: seq<Scan.Gap>, api: FixApi): map<string, Table> {
    if ds == [] then tables
    else FixDate(FixLoop(tables, ds[..|ds| - 1], gaps, api), ds[|ds| - 1], Targets(gaps, ds[|ds| - 1]), api)
  }

  /** The dates the repair requests when it reads its gap list from `path`. */
  function FixRequests(files: map<string, seq<Scan.Gap>>, path: string): seq<string> {
    if path in files then GapDates(files[path]) else []
  }

  /** The loop of `fix_with_api` over the gap list `gaps`; returns the dates requested. */
  method FixFrom(db: Database, gaps: seq<Scan.Gap>, api: FixApi) returns (requested: seq<string>)
    modifies db
    ensures requested == GapDates(gaps)
    ensures db.tables == FixLoop(old(db.tables), requested, gaps, api) && db.meta == old(db.meta)
  {
    var dates := GapDates(gaps);
    var i := 0;
    while i < |dates|
      invariant 0 <= i <= |dates|
      invariant db.tables == FixLoop(old(db.tables), dates[..i], gaps, api) && db.meta == old(db.meta)
    {
      ghost var mid := db.tables;
      FixOneDate(db, dates[i], Targets(gaps, dates[i]), api);
      FixLoopSnoc(old(db.tables), dates, i, gaps, api, mid, db.tables);
      i := i + 1;
    }
    assert dates[..i] == dates;
    requested := dates;
  }

  lemma FixLoopSnoc(tables: map<string, Table>, ds: seq<string>, i: nat, gaps: seq<Scan.Gap>, api: FixApi,
                    mid: map<string, Table>, after: map<string, Table>)
    requires i < |ds|
    requires mid == FixLoop(tables, ds[..i], gaps, api)
    requires after == FixDate(mid, ds[i], Targets(gaps, ds[i]), api)
    ensures after == FixLoop(tables, ds[..i + 1], gaps, api)
  {
    assert ds[..i + 1][..i] == ds[..i];
  }

  method FixOneDate(db: Database, d: string, targets: set<Value>, api: FixApi)
    modifies db
    ensures db.tables == FixDate(old(db.tables), d, targets, api) && db.meta == old(db.meta)
  {
    var df := api.daily(d);
    if df.None? {
      return;
    }
    var daily := OnlyTargets(df.value, targets);
    if daily != [] {
      var ok := InsertMissing(db, "daily", daily, DailyColumns);
      if !ok {
        return;
      }
    }
    var sf := api.suspend(d);
    if sf.None? {
      return;
    }
    var susp := OnlyTargets(sf.value, targets);
    if susp != [] {
      var ok := InsertMissing(db, "suspend_d", susp, SuspendColumns);
    }
  }

  /** `fix_with_api` as written: it reads the gap list from `validation_gaps.csv`. */
  method FixWithApi(db: Database, files: map<string, seq<Scan.Gap>>, api: FixApi) returns (requested: seq<string>)
    modifies db
    ensures requested == FixRequests(files, GapsCsv)
    ensures db.tables == FixLoop(old(db.tables), requested, if GapsCsv in files then files[GapsCsv] else [], api)
  {
    if GapsCsv !in files {
      return [];
    }
    requested := FixFrom(db, files[GapsCsv], api);
  }

  /** `fix_with_api` reading the file the scan writes, `validation_matrix.csv`. */
  method FixWithApiCorrected(db: Database, files: map<string, seq<Scan.Gap>>, api: FixApi) returns (requested: seq<string>)
    modifies db
    ensures requested == FixRequests(files, MatrixCsv)
    ensures db.tables == FixLoop(old(db.tables), requested, if MatrixCsv in files then files[MatrixCsv] else [], api)
  {
    if MatrixCsv !in files {
      return [];
    }
    requested := FixFrom(db, files[MatrixCsv], api);
  }

  /** As written, a repair run after a scan requests nothing: the scan never writes the file it reads. */
  lemma ScanThenFixRequestsNothing(files: map<string, seq<Scan.Gap>>, gaps: seq<Scan.Gap>)
    requires GapsCsv !in files
    ensures FixRequests(ScanOutput(files, gaps), GapsCsv) == []
  {
  }

  /** Reading the scan's own file, the repair requests every gap date once, in ascending order. */
  lemma ScanThenFixCorrected(files: map<string, seq<Scan.Gap>>, gaps: seq<Scan.Gap>)
    requires gaps != []
    ensures var ds := FixRequests(ScanOutput(files, gaps), MatrixCsv);
      StrictlyAscending(ds) && forall d :: d in ds <==> exists g :: g in gaps && g.date == d
  {
  }

  /** The repair only appends rows: nothing stored before is altered or removed. */
  lemma {:induction false} FixKeepsRows(tables: map<string, Table>, ds: seq<string>, gaps: seq<Scan.Gap>, api: FixApi)
    ensures Grows(tables, FixLoop(tables, ds, gaps, api))
  {
    if ds == [] {
      assert forall n :: n in tables ==> tables[n].rows[..|tables[n].rows|] == tables[n].rows;
    } else {
      var mid := FixLoop(tables, ds[..|ds| - 1], gaps, api);
      FixKeepsRows(tables, ds[..|ds| - 1], gaps, api);
      FixDateKeepsRows(mid, ds[|ds| - 1], Targets(gaps, ds[|ds| - 1]), api);
      GrowsTrans(tables, mid, FixLoop(tables, ds, gaps, api));
    }
  }

  lemma GrowsRefl(tables: map<string, Table>)
    ensures Grows(tables, tables)
  {
    assert forall n :: n in tables ==> tables[n].rows[..|tables[n].rows|] == tables[n].rows;
  }

  /** Grows across an insert that may raise (and then changes nothing). */
  lemma InsertOrKeep(tables: map<string, Table>, name: string, df: Frame, cols: seq<string>)
    ensures Insert(tables, name, df, cols).Some? ==> Grows(tables, Insert(tables, name, df, cols).value)
  {
    if Insert(tables, name, df, cols).Some? {
      InsertKeepsRows(tables, name, df, cols);
    }
  }

  lemma FixDateKeepsRows(tables: map<string, Table>, d: string, targets: set<Value>, api: FixApi)
    ensures Grows(tables, FixDate(tables, d, targets, api))
  {
    GrowsRefl(tables);
    match api.daily(d)
    case None =>
    case Some(df) =>
      var daily := OnlyTargets(df, targets);
      InsertOrKeep(tables, "daily", daily, DailyColumns);
      var t1 := if daily == [] then Some(tables) else Insert(tables, "daily", daily, DailyColumns);
      if t1.Some? {
        var t := t1.value;
        GrowsRefl(t);
        match api.suspend(d)
        case None =>
        case Some(sf) =>
          var susp := OnlyTargets(sf, targets);
          InsertOrKeep(t, "suspend_d", susp, SuspendColumns);
          if susp != [] && Insert(t, "suspend_d", susp, SuspendColumns).Some? {
            GrowsTrans(tables, t, Insert(t, "suspend_d", susp, SuspendColumns).value);
          }
      }
  }

  // ---------------------------------------------------------------------------
  // The yearly suspension backfill (lines 486-522)
  // ---------------------------------------------------------------------------

  const SuspendLimit: nat := 5000

  /**
   * The paging loop of one year from `offset`: each page is inserted; the
   * loop ends at an empty page, a short page, or an exception from the API
   * or the insert (which abandons the rest of the year).
   */
  function YearLoop(tables: map<string, Table>, api: Api, offset: nat): map<string, Table>
    decreases |api.data| - offset
  {
    if api.fault(offset, 0).Some? then tables
    else
      var page := Slice(api, offset, SuspendLimit);
      if page == [] then tables
      else
        match Insert(tables, "suspend_d", page, SuspendColumns)
        case None => tables
        case Some(t) => if |page| < SuspendLimit then t else YearLoop(t, api, offset + SuspendLimit)
  }

  /** The pages one year's loop inserts, from `offset` on, when neither the API nor an insert raises. */
  function YearPages(api: Api, offset: nat): seq<Frame>
    decreases |api.data| - offset
  {
    var page := Slice(api, offset, SuspendLimit);
    if page == [] then []
    else if |page| < SuspendLimit then [page]
    else [page] + YearPages(api, offset + SuspendLimit)
  }

  /** With a reliable API the pages are the whole result set from `offset`, without gap or overlap. */
  lemma {:induction false} YearPagesCover(api: Api, offset: nat)
    requires offset <= |api.data|
    ensures Concat(YearPages(api, offset)) == api.data[offset..]
    decreases |api.data| - offset
  {
    var page := Slice(api, offset, SuspendLimit);
    if page == [] {
      assert api.data[offset..] == [];
    } else if |page| < SuspendLimit {
      assert Concat([page]) == page + Concat([]);
    } else {
      YearPagesCover(api, offset + SuspendLimit);
      assert api.data[offset..] == page + api.data[offset + SuspendLimit..];
      assert Concat([page] + YearPages(api, offset + SuspendLimit)) == page + Concat(YearPages(api, offset + SuspendLimit));
    }
  }

  /** The pages inserted in order; the first insert that raises ends the year. */
  function InsertPages(tables: map<string, Table>, pages: seq<Frame>): map<string, Table> {
    if pages == [] then tables
    else
      match Insert(tables, "suspend_d", pages[0], SuspendColumns)
      case None => tables
      case Some(t) => InsertPages(t, pages[1..])
  }

  /** With a reliable API one year's loop is the insert of its pages, which together are the whole result set. */
  lemma {:induction false} YearLoopPages(tables: map<string, Table>, api: Api, offset: nat)
    requires Reliable(api)
    ensures YearLoop(tables, api, offset) == InsertPages(tables, YearPages(api, offset))
    decreases |api.data| - offset
  {
    assert api.fault(offset, 0).None?;
    var page := Slice(api, offset, SuspendLimit);
    if page != [] {
      assert YearPages(api, offset)[0] == page;
      match Insert(tables, "suspend_d", page, SuspendColumns)
      case None =>
      case Some(t) =>
        if |page| >= SuspendLimit {
          YearLoopPages(t, api, offset + SuspendLimit);
          assert YearPages(api, offset)[1..] == YearPages(api, offset + SuspendLimit);
        }
    }
  }

  /** One year's loop only appends rows. */
  lemma {:induction false} YearKeepsRows(tables: map<string, Table>, api: Api, offset: nat)
    ensures Grows(tables, YearLoop(tables, api, offset))
    decreases |api.data| - offset
  {
    GrowsRefl(tables);
    if api.fault(offset, 0).None? {
      var page := Slice(api, offset, SuspendLimit);
      if page != [] && Insert(tables, "suspend_d", page, SuspendColumns).Some? {
        var t := Insert(tables, "suspend_d", page, SuspendColumns).value;
        InsertKeepsRows(tables, "suspend_d", page, SuspendColumns);
        if |page| >= SuspendLimit {
          YearKeepsRows(t, api, offset + SuspendLimit);
          GrowsTrans(tables, t, YearLoop(t, api, offset + SuspendLimit));
        }
      }
    }
  }

  /** The year after year loop over `range(start_year, end_year + 1)`; `apiOf(y)` is year `y`'s query. */
  function RangeLoop(tables: map<string, Table>, apiOf: int -> Api, startYear: int, endYear: int): map<string, Table>
    decreases endYear - startYear + 1
  {
    if startYear > endYear then tables
    else RangeLoop(YearLoop(tables, apiOf(startYear), 0), apiOf, startYear + 1, endYear)
  }

  /** One year of `fix_suspend_by_range`: the `while True` paging loop. */
  method FetchYear(db: Database, api: Api)
    modifies db
    ensures db.tables == YearLoop(old(db.tables), api, 0) && db.meta == old(db.meta)
  {
    var offset: nat := 0;
    ghost var goal := YearLoop(old(db.tables), api, 0);
    while true
      invariant db.meta == old(db.meta)
      invariant goal == YearLoop(db.tables, api, offset)
      decreases |api.data| - offset
    {
      if api.fault(offset, 0).Some? {
        return;
      }
      var page := Slice(api, offset, SuspendLimit);
      if page == [] {
        return;
      }
      var ok := InsertMissing(db, "suspend_d", page, SuspendColumns);
      if !ok || |page| < SuspendLimit {
        return;
      }
      offset := offset + SuspendLimit;
    }
  }

  /** `fix_suspend_by_range(start_year, end_year)`. */
  method FixSuspendByRange(db: Database, apiOf: int -> Api, startYear: int, endYear: int)
    modifies db
    ensures db.tables == RangeLoop(old(db.tables), apiOf, startYear, endYear)
  {
    var year := startYear;
    ghost var goal := RangeLoop(old(db.tables), apiOf, startYear, endYear);
    while year <= endYear
      invariant startYear <= year || year > endYear
      invariant goal == RangeLoop(db.tables, apiOf, year, endYear)
      decreases endYear - year + 1
    {
      FetchYear(db, apiOf(year));
      year := year + 1;
    }
  }

  /** The backfill over a range of years only appends rows. */
  lemma {:induction false} RangeKeepsRows(tables: map<string, Table>, apiOf: int -> Api, startYear: int, endYear: int)
    ensures Grows(tables, RangeLoop(tables, apiOf, startYear, endYear))
    decreases endYear - startYear + 1
  {
    if startYear > endYear {
      GrowsRefl(tables);
    } else {
      var t := YearLoop(tables, apiOf(startYear), 0);
      YearKeepsRows(tables, apiOf(startYear), 0);
      RangeKeepsRows(t, apiOf, startYear + 1, endYear);
      GrowsTrans(tables, t, RangeLoop(t, apiOf, startYear + 1, endYear));
    }
  }
}
