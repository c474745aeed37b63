/**
 * The repair routines of scripts/fix_daily_gaps.py: `fetch_from_api`
 * re-downloads whole trading days and inserts the codes `daily` does not
 * hold for that day; `supplement_from_bak` copies every `bak_daily` row
 * that has no (ts_code, trade_date) match in `daily`.
 *
 * The `pro.daily(trade_date=...)` call is an oracle that gives a frame or
 * raises (`None`); a `None` frame from the client is an empty frame. The
 * sleeps after each call and after each error are left out.
 */
module FixDailyGaps {
  import opened Common
  import opened Db
  import Repair = ComprehensiveRepair

  /** The `stats` dict of `fetch_from_api`; `errors` keeps the failing dates (the messages are left out). */
  datatype Stats = Stats(fetched: nat, inserted: nat, skipped: nat, errors: seq<string>)

  const NoStats := Stats(0, 0, 0, [])

  // ---------------------------------------------------------------------------
  // One trading day (lines 110-155)
  // ---------------------------------------------------------------------------

  /** `existing_codes`: the codes `daily` holds for trade date `d` (a NULL code is one of them). */
  function CodesOn(stored: Frame, d: string): set<Value> {
    set r | r in stored && Get(r, "trade_date") == Some(d) :: Get(r, "ts_code")
  }

  /** Does `x`'s code already have a stored row on `d`? (`df['ts_code'].isin(existing_codes)`) */
  predicate Known(stored: Frame, d: string, x: Row) {
    Get(x, "ts_code") in CodesOn(stored, d)
  }

  /** `new_df`: the fetched rows whose code has no stored row on `d`, in frame order. */
  function NewRows(stored: Frame, d: string, df: Frame): (r: Frame)
    ensures |r| <= |df|
    ensures forall x :: x in r <==> x in df && !Known(stored, d, x)
  {
    Filter(df, (x: Row) => !Known(stored, d, x))
  }

  /** What one date of the loop did. */
  datatype Visit =
    | Empty                              // the API gave no rows: a skipped date
    | Failed(fetched: nat)               // an exception, after `fetched` rows were counted
    | Wrote(fetched: nat, added: Frame)  // `added` was appended to `daily`

  /**
   * One date: the API call (raises or gives `df`), the empty check, then
   * the stored-code query, the filter and one transaction inserting every
   * new row. The transaction is never committed when a row fails (missing
   * `trade_date` column, unique index broken), so the connection's close
   * rolls it back and `daily` is unchanged.
   */
  function VisitDate(tables: map<string, Table>, d: string, api: string -> Option<Frame>): Visit {
    match api(d)
    case None => Failed(0)
    case Some(df) =>
      if df == [] then Empty
      else if "daily" !in tables || "ts_code" !in ColumnsOf(df) then Failed(|df|)
      else
        var newRows := NewRows(tables["daily"].rows, d, df);
        if newRows == [] then Wrote(|df|, [])
        else if "trade_date" !in ColumnsOf(df) then Failed(|df|)
        else
          var rows := Repair.ProjectAll(newRows, Repair.DailyColumns);
          if !IndexHolds(tables["daily"].rows + rows, tables["daily"].index) then Failed(|df|)
          else Wrote(|df|, rows)
  }

  function Apply(tables: map<string, Table>, v: Visit): map<string, Table> {
    if v.Wrote? && v.added != [] && "daily" in tables then
      tables["daily" := tables["daily"].(rows := tables["daily"].rows + v.added)]
    else tables
  }

  function Tally(s: Stats, d: string, v: Visit): Stats {
    match v
    case Empty => s.(skipped := s.skipped + 1)
    case Failed(n) => s.(fetched := s.fetched + n, errors := s.errors + [d])
    case Wrote(n, rows) => s.(fetched := s.fetched + n, inserted := s.inserted + |rows|)
  }

  /** The tables and the stats after a run. */
  datatype After = After(tables: map<string, Table>, stats: Stats)

  /** The `for trade_date in dates` loop over the first `|ds|` dates. */
  function Run(tables: map<string, Table>, ds: seq<string>, api: string -> Option<Frame>): After
    decreases |ds|
  {
    if ds == [] then After(tables, NoStats)
    else
      var a := Run(tables, ds[..|ds| - 1], api);
      var v := VisitDate(a.tables, ds[|ds| - 1], api);
      After(Apply(a.tables, v), Tally(a.stats, ds[|ds| - 1], v))
  }

  /** The inserting step of one date, row by row inside the transaction. */
  method FetchDate(db: Database, d: string, api: string -> Option<Frame>) returns (v: Visit)
    modifies db
    ensures v == VisitDate(old(db.tables), d, api)
    ensures db.tables == Apply(old(db.tables), v) && db.meta == old(db.meta)
  {
    var response := api(d);
    if response.None? {
      return Failed(0);
    }
    var df := response.value;
    if df == [] {
      return Empty;
    }
    if "daily" !in db.tables || "ts_code" !in ColumnsOf(df) {
      return Failed(|df|);
    }
    var t := db.tables["daily"];
    var newRows := FilterInOrder(df, (x: Row) => !Known(t.rows, d, x));
    if newRows == [] {
      return Wrote(|df|, []);
    }
    if "trade_date" !in ColumnsOf(df) {
      return Failed(|df|);
    }
    var pending := [];
    var k := 0;
    while k < |newRows|
      invariant 0 <= k <= |newRows|
      invariant pending == Repair.ProjectAll(newRows[..k], Repair.DailyColumns)
    {
      pending := pending + [Repair.Project(newRows[k], Repair.DailyColumns)];
      k := k + 1;
    }
    assert newRows[..k] == newRows;
    if !IndexHolds(t.rows + pending, t.index) {
      return Failed(|df|);
    }
    db.tables := db.tables["daily" := t.(rows := t.rows + pending)];
    return Wrote(|df|, pending);
  }

  /**
   * `fetch_from_api(dates, dry_run)`: `requested` is the dates passed to
   * the API in call order. A dry run calls nothing and changes nothing.
   */
  method FetchFromApi(db: Database, dates: seq<string>, dryRun: bool, api: string -> Option<Frame>)
    returns (stats: Stats, requested: seq<string>)
    modifies db
    ensures requested == if dryRun then [] else dates
    ensures dryRun ==> stats == NoStats && db.tables == old(db.tables)
    ensures !dryRun ==> After(db.tables, stats) == Run(old(db.tables), dates, api)
    ensures db.meta == old(db.meta)
  {
    stats := NoStats;
    requested := [];
    var i := 0;
    while i < |dates|
      invariant 0 <= i <= |dates|
      invariant requested == if dryRun then [] else dates[..i]
      invariant dryRun ==> stats == NoStats && db.tables == old(db.tables)
      invariant !dryRun ==> After(db.tables, stats) == Run(old(db.tables), dates[..i], api)
      invariant db.meta == old(db.meta)
    {
      if !dryRun {
        assert dates[..i + 1][..i] == dates[..i];
        requested := requested + [dates[i]];
        var v := FetchDate(db, dates[i], api);
        stats := Tally(stats, dates[i], v);
      }
      i := i + 1;
    }
    assert dates[..i] == dates;
  }

  // ---------------------------------------------------------------------------
  // What one date does
  // ---------------------------------------------------------------------------

  lemma ProjectKeeps(x: Row, c: string)
    requires c in Repair.DailyColumns
    ensures Get(Repair.Project(x, Repair.DailyColumns), c) == Get(x, c)
  {
  }

  /**
   * An empty response, and only that, skips the date; an API exception is
   * an error that counts nothing; a written date inserts exactly the
   * projections of the fetched rows whose code had no stored row that day.
   */
  lemma VisitMeaning(tables: map<string, Table>, d: string, api: string -> Option<Frame>)
    ensures VisitDate(tables, d, api).Empty? <==> api(d) == Some([])
    ensures api(d).None? ==> VisitDate(tables, d, api) == Failed(0)
    ensures api(d).Some? && !VisitDate(tables, d, api).Empty? ==> VisitDate(tables, d, api).fetched == |api(d).value|
    ensures VisitDate(tables, d, api).Wrote? ==>
      "daily" in tables &&
      forall y :: y in VisitDate(tables, d, api).added <==>
        exists x :: x in api(d).value && !Known(tables["daily"].rows, d, x) && y == Repair.Project(x, Repair.DailyColumns)
  {
    var v := VisitDate(tables, d, api);
    if v.Wrote? {
      var df := api(d).value;
      var newRows := NewRows(tables["daily"].rows, d, df);
      forall y
        ensures y in v.added <==> exists x :: x in df && !Known(tables["daily"].rows, d, x) && y == Repair.Project(x, Repair.DailyColumns)
      {
        if y in v.added {
          var i :| 0 <= i < |v.added| && v.added[i] == y;
          assert newRows[i] in newRows;
        }
        if x :| x in df && !Known(tables["daily"].rows, d, x) && y == Repair.Project(x, Repair.DailyColumns) {
          assert newRows != [] && x in newRows;
          var i :| 0 <= i < |newRows| && newRows[i] == x;
          assert v.added[i] == y;
        }
      }
    }
  }

  /** One date adds at most as many rows as it fetched, and touches nothing but `daily`, where it only appends. */
  lemma VisitKeeps(tables: map<string, Table>, d: string, api: string -> Option<Frame>)
    ensures var v := VisitDate(tables, d, api);
      && (v.Wrote? ==> |v.added| <= v.fetched)
      && Repair.Grows(tables, Apply(tables, v)) && Apply(tables, v).Keys == tables.Keys
      && (forall n :: n in tables && n != "daily" ==> Apply(tables, v)[n] == tables[n])
      && ("daily" in tables ==>
            |Apply(tables, v)["daily"].rows| == |tables["daily"].rows| + (if v.Wrote? then |v.added| else 0))
  {
    var v := VisitDate(tables, d, api);
    if v.Wrote? && v.added != [] {
      assert Repair.Extends(tables["daily"].rows, Apply(tables, v)["daily"].rows);
    }
  }

  /**
   * Fetching a date again right after it was written inserts nothing, as
   * long as the API gives the same rows and they all carry that date.
   */
  lemma RefetchWritesNothing(tables: map<string, Table>, d: string, api: string -> Option<Frame>)
    requires VisitDate(tables, d, api).Wrote?
    requires forall x :: x in api(d).value ==> Get(x, "trade_date") == Some(d)
    ensures VisitDate(Apply(tables, VisitDate(tables, d, api)), d, api) == Wrote(|api(d).value|, [])
  {
    var v := VisitDate(tables, d, api);
    var df := api(d).value;
    VisitMeaning(tables, d, api);
    var after := Apply(tables, v);
    AllKnownAfter(tables["daily"].rows, d, df, v.added, after["daily"].rows);
  }

  /** Once the new rows' projections are stored, every fetched code is known on `d`. */
  lemma AllKnownAfter(before: Frame, d: string, df: Frame, added: Frame, after: Frame)
    requires forall x :: x in df ==> Get(x, "trade_date") == Some(d)
    requires forall x :: x in df && !Known(before, d, x) ==> Repair.Project(x, Repair.DailyColumns) in added
    requires forall r :: r in before || r in added ==> r in after
    ensures NewRows(after, d, df) == []
  {
    forall x | x in df
      ensures Known(after, d, x)
    {
      if Known(before, d, x) {
        var r :| r in before && Get(r, "trade_date") == Some(d) && Get(r, "ts_code") == Get(x, "ts_code");
        assert r in after;
      } else {
        var y := Repair.Project(x, Repair.DailyColumns);
        ProjectKeeps(x, "ts_code");
        ProjectKeeps(x, "trade_date");
        assert y in after;
      }
    }
    FilterNone(df, (x: Row) => !Known(after, d, x));
  }

  // ---------------------------------------------------------------------------
  // What a run does
  // ---------------------------------------------------------------------------

  /** The stats of a run over `ds` and what it did to the tables. */
  predicate Accounts(tables: map<string, Table>, ds: seq<string>, a: After) {
    && a.stats.inserted <= a.stats.fetched
    && a.stats.skipped + |a.stats.errors| <= |ds|
    && (forall e :: e in a.stats.errors ==> e in ds)
    && Repair.Grows(tables, a.tables) && a.tables.Keys == tables.Keys
    && (forall n :: n in tables && n != "daily" ==> a.tables[n] == tables[n])
    && ("daily" in tables ==> |a.tables["daily"].rows| == |tables["daily"].rows| + a.stats.inserted)
    && ("daily" !in tables ==> a.stats.inserted == 0)
  }

  /**
   * Over a whole run: `inserted` never exceeds `fetched` and is exactly the
   * number of rows appended to `daily`; every date is skipped, an error or
   * written, the errors are dates of the run, and no stored row is altered
   * or removed.
   */
  lemma {:induction false} RunAccounts(tables: map<string, Table>, ds: seq<string>, api: string -> Option<Frame>)
    ensures Accounts(tables, ds, Run(tables, ds, api))
    decreases |ds|
  {
    if ds != [] {
      var init := ds[..|ds| - 1];
      RunAccounts(tables, init, api);
      AccountsStep(tables, init, ds[|ds| - 1], api, Run(tables, init, api));
      assert init + [ds[|ds| - 1]] == ds;
    }
  }

  lemma AccountsStep(tables: map<string, Table>, init: seq<string>, d: string, api: string -> Option<Frame>, a: After)
    requires Accounts(tables, init, a)
    ensures var v := VisitDate(a.tables, d, api);
      Accounts(tables, init + [d], After(Apply(a.tables, v), Tally(a.stats, d, v)))
  {
    var v := VisitDate(a.tables, d, api);
    VisitKeeps(a.tables, d, api);
    Repair.GrowsTrans(tables, a.tables, Apply(a.tables, v));
    var s := Tally(a.stats, d, v);
    forall e | e in s.errors ensures e in init + [d] {
      if e in a.stats.errors {
        assert e in init;
      }
    }
  }

  /** A run over dates that all fail leaves the tables alone and lists every date as an error, in order. */
  lemma {:induction false} RunAllFailing(tables: map<string, Table>, ds: seq<string>, api: string -> Option<Frame>)
    requires forall d :: d in ds ==> api(d).None?
    ensures Run(tables, ds, api) == After(tables, NoStats.(errors := ds))
    decreases |ds|
  {
    if ds != [] {
      var init := ds[..|ds| - 1];
      assert forall d :: d in init ==> d in ds;
      RunAllFailing(tables, init, api);
      assert ds[|ds| - 1] in ds;
      assert init + [ds[|ds| - 1]] == ds;
    }
  }

  // ---------------------------------------------------------------------------
  // supplement_from_bak (lines 160-201)
  // ---------------------------------------------------------------------------

  /** `bak_daily b LEFT JOIN daily d ON code and date WHERE d.ts_code IS NULL`: the unmatched bak rows, in order. */
  function Unmatched(daily: Frame, bak: Frame): (r: Frame)
    ensures forall b :: b in r <==> b in bak && !Repair.StoredMatch(daily, b)
  {
    Filter(bak, (b: Row) => !Repair.StoredMatch(daily, b))
  }

  /** The tables after the call and `stats['inserted']`. */
  datatype Supplied = Supplied(tables: map<string, Table>, inserted: nat)

  /**
   * `supplement_from_bak(dry_run)`. A dry run only counts the unmatched
   * rows. A real run inserts their projections in one statement, which
   * fails as a whole when it breaks `daily`'s unique index. None when the
   * call raises (a missing table, a broken index).
   */
  function Supplement(tables: map<string, Table>, dryRun: bool): Option<Supplied> {
    if "bak_daily" !in tables || "daily" !in tables then None
    else
      var daily := tables["daily"];
      var add := Repair.ProjectAll(Unmatched(daily.rows, tables["bak_daily"].rows), Repair.DailyColumns);
      if dryRun then Some(Supplied(tables, |add|))
      else if !IndexHolds(daily.rows + add, daily.index) then None
      else Some(Supplied(tables["daily" := daily.(rows := daily.rows + add)], |add|))
  }

  method SupplementFromBak(db: Database, dryRun: bool) returns (inserted: Option<nat>)
    modifies db
    ensures var r := Supplement(old(db.tables), dryRun);
      && (r.None? ==> inserted.None? && db.tables == old(db.tables))
      && (r.Some? ==> inserted == Some(r.value.inserted) && db.tables == r.value.tables)
    ensures db.meta == old(db.meta)
  {
    if "bak_daily" !in db.tables || "daily" !in db.tables {
      return None;
    }
    var daily := db.tables["daily"];
    var unmatched := FilterInOrder(db.tables["bak_daily"].rows, (b: Row) => !Repair.StoredMatch(daily.rows, b));
    var add := Repair.ProjectAll(unmatched, Repair.DailyColumns);
    if dryRun {
      return Some(|add|);
    }
    if !IndexHolds(daily.rows + add, daily.index) {
      return None;
    }
    db.tables := db.tables["daily" := daily.(rows := daily.rows + add)];
    return Some(|add|);
  }

  /**
   * The dry run changes nothing and announces exactly the count a real run
   * inserts; a real run appends one row per unmatched bak row and keeps
   * every other table.
   */
  lemma SupplementCounts(tables: map<string, Table>)
    requires Supplement(tables, false).Some?
    ensures var dry := Supplement(tables, true);
      && dry.Some? && dry.value.tables == tables
      && dry.value.inserted == Supplement(tables, false).value.inserted
                            == |Unmatched(tables["daily"].rows, tables["bak_daily"].rows)|
    ensures var after := Supplement(tables, false).value.tables;
      && Repair.Grows(tables, after) && after.Keys == tables.Keys
      && (forall n :: n in tables && n != "daily" ==> after[n] == tables[n])
  {
    var after := Supplement(tables, false).value.tables;
    assert Repair.Extends(tables["daily"].rows, after["daily"].rows);
  }

  /**
   * After a real run the only bak rows still without a match are those
   * with a NULL code or date: every other gap is closed.
   */
  lemma SupplementCloses(tables: map<string, Table>, b: Row)
    requires Supplement(tables, false).Some?
    ensures var after := Supplement(tables, false).value.tables;
      b in Unmatched(after["daily"].rows, tables["bak_daily"].rows) <==>
        b in tables["bak_daily"].rows && (Get(b, "ts_code").None? || Get(b, "trade_date").None?)
  {
    var before := tables["daily"].rows;
    var after := Supplement(tables, false).value.tables["daily"].rows;
    var add := Repair.ProjectAll(Unmatched(before, tables["bak_daily"].rows), Repair.DailyColumns);
    assert after == before + add;
    if b in tables["bak_daily"].rows && Get(b, "ts_code").Some? && Get(b, "trade_date").Some? {
      if Repair.StoredMatch(before, b) {
        var r :| r in before && Repair.KeyOf(r).0.Some? && Repair.KeyOf(r).1.Some? && Repair.KeyOf(r) == Repair.KeyOf(b);
        assert r in after;
      } else {
        var u := Unmatched(before, tables["bak_daily"].rows);
        assert b in u;
        var i :| 0 <= i < |u| && u[i] == b;
        var y := add[i];
        ProjectKeeps(b, "ts_code");
        ProjectKeeps(b, "trade_date");
        assert y in after;
      }
      assert Repair.StoredMatch(after, b);
    }
  }
}
