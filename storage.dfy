/**
 * The reconciliation writer (src/tushare_duckdb/storage.py, `DuckDBStorage.store_data`).
 *
 * A batch goes through the normalisation hooks one after another (field renames,
 * the finance announcement-date fill, the moneyflow_cnt_ths code fill, date
 * canonicalisation, the null-date filter) and is then written: `replace` first
 * deletes a date range (or everything), `insert_new` inserts only rows without a
 * key match in the stored table, any other mode inserts every row. The metadata
 * row of the table is refreshed after a successful write.
 */
module Storage {
  import opened Common
  import opened Calendar
  import opened Db
  import opened Metadata

  /** The parts of a table's configuration entry that `store_data` reads. */
  datatype Config = Config(
    fieldMappings: seq<(string, string)>,  // api column -> table column, in dict order
    dateColumns: seq<string>,
    apiDateFormat: Option<string>)

  /** What `store_data` does to its caller: return a code, or raise. */
  datatype StoreResult = Returned(code: int) | Raised

  /** The outcome of the frame-normalisation phase. */
  datatype Prepared = Stop(code: int) | Raise | Ready(rows: Frame)

  // ---------------------------------------------------------------------------
  // Field mappings
  // ---------------------------------------------------------------------------

  function RenameRow(r: Row, from: string, to: string): (out: Row)
    ensures from in r ==> to in out && out[to] == r[from]
    ensures from !in r ==> out == r
  {
    if from in r then (r - {from})[to := r[from]] else r
  }

  /** Renames applied mapping by mapping, each only when its source is a column of the batch. */
  function ApplyMappings(f: Frame, ms: seq<(string, string)>): Frame
    decreases |ms|
  {
    if ms == [] then f
    else
      var (k, v) := ms[0];
      var f1 := if k in ColumnsOf(f) then seq(|f|, i requires 0 <= i < |f| => RenameRow(f[i], k, v)) else f;
      ApplyMappings(f1, ms[1..])
  }

  /** Some mapping targets a column the table does not have. */
  predicate MappingTargetMissing(ms: seq<(string, string)>, tableColumns: seq<string>) {
    exists i :: 0 <= i < |ms| && ms[i].1 !in tableColumns
  }

  // ---------------------------------------------------------------------------
  // Finance hook: announcement date and update_flag
  // ---------------------------------------------------------------------------

  /** `df.loc[blank(target), target] = df.loc[blank(target), src]` */
  function FillBlankFrom(r: Row, target: string, src: string): (out: Row)
    ensures !Blank(Get(r, target)) ==> out == r
    ensures Blank(Get(r, target)) ==> Get(out, target) == Get(r, src)
  {
    if Blank(Get(r, target)) then r[target := Get(r, src)] else r
  }

  function FillColumn(f: Frame, target: string, src: string): (g: Frame)
    ensures |g| == |f|
    ensures forall i :: 0 <= i < |f| ==> g[i] == FillBlankFrom(f[i], target, src)
  {
    seq(|f|, i requires 0 <= i < |f| => FillBlankFrom(f[i], target, src))
  }

  function AnnDateFill(f: Frame): (g: Frame)
    ensures |g| == |f|
  {
    var f1 := if "f_ann_date" in ColumnsOf(f) then FillColumn(f, "ann_date", "f_ann_date") else f;
    if "end_date" in ColumnsOf(f1) then FillColumn(f1, "ann_date", "end_date") else f1
  }

  function DefaultFlag(f: Frame): (g: Frame)
    ensures |g| == |f|
    ensures forall i :: 0 <= i < |g| ==> Get(g[i], "update_flag").Some?
  {
    seq(|f|, i requires 0 <= i < |f| =>
      if Get(f[i], "update_flag").None? then f[i]["update_flag" := Some("0")] else f[i])
  }

  /** The finance hook of lines 48-76; Stop(0) when every row lost its announcement date. */
  function FinanceHook(f: Frame, keys: seq<string>): Prepared {
    var annFilled :=
      if "ann_date" in ColumnsOf(f) then
        Filter(AnnDateFill(f), (r: Row) => !Blank(Get(r, "ann_date")))
      else f;
    if "ann_date" in ColumnsOf(f) && annFilled == [] then Stop(0)
    else if "update_flag" in keys then Ready(DefaultFlag(annFilled))
    else Ready(annFilled)
  }

  // ---------------------------------------------------------------------------
  // moneyflow_cnt_ths hook: ts_code from the concept-board name
  // ---------------------------------------------------------------------------

  const ConceptCodes: map<string, string> := map["蚂蚁集团概念" := "885749.TI", "2025年报预增" := "886107.TI"]

  /** `name.map(TS_CODE_MAPPING)`: the mapped code, or NaN. */
  function CodeForName(name: Value): Value {
    if name.Some? && name.value in ConceptCodes then Some(ConceptCodes[name.value]) else None
  }

  function MoneyflowHook(f: Frame): Prepared {
    if "ts_code" in ColumnsOf(f) && "name" in ColumnsOf(f) then
      var filled := seq(|f|, i requires 0 <= i < |f| =>
        if Blank(Get(f[i], "ts_code")) then f[i]["ts_code" := CodeForName(Get(f[i], "name"))] else f[i]);
      var kept := Filter(filled, (r: Row) => !Blank(Get(r, "ts_code")));
      if kept == [] then Stop(0) else Ready(kept)
    else Ready(f)
  }

  // ---------------------------------------------------------------------------
  // Date canonicalisation
  // ---------------------------------------------------------------------------

  /** `YYYY-MM-DD`, the other form the parser accepts for a day. */
  function ParseDashed(s: string): (r: Option<Ymd>)
    ensures r.Some? ==> InRange(r.value)
  {
    if |s| == 10 && s[4] == '-' && s[7] == '-' then Parse(s[..4] + s[5..7] + s[8..]) else None
  }

  /** `YYYYMM` read with format '%Y%m' (the first of the month). */
  function ParseMonth(s: string): (r: Option<Ymd>)
    ensures r.Some? ==> InRange(r.value)
  {
    if |s| == 6 && AllDigits(s) then
      var d := Ymd(DigitsValue(s[..4]), DigitsValue(s[4..]), 1);
      if InRange(d) then Some(d) else None
    else None
  }

  /**
   * `pd.to_datetime(v, format=..., errors='coerce').dt.strftime(fmt).fillna('')`
   * for one cell: a parseable value is rewritten canonically, anything else becomes ''.
   */
  function NormalizeDateCell(v: Value, monthly: bool): (out: Value)
    ensures out.Some?
  {
    if v.None? then Some("")
    else if monthly then
      match ParseMonth(v.value)
      case Some(d) => Some(FormatMonth(d))
      case None => Some("")
    else
      match Parse(v.value)
      case Some(d) => Some(Format(d))
      case None =>
        match ParseDashed(v.value)
        case Some(d) => Some(Format(d))
        case None => Some("")
  }

  /** One column rewritten cell by cell; every other cell of every row is left alone. */
  function NormalizeColumn(f: Frame, col: string, monthly: bool): (g: Frame)
    ensures |g| == |f|
    ensures forall i :: 0 <= i < |f| ==> col in g[i] && g[i][col].Some? && g[i] == f[i][col := g[i][col]]
    decreases |f|
  {
    if f == [] then []
    else [f[0][col := NormalizeDateCell(Get(f[0], col), monthly)]] + NormalizeColumn(f[1..], col, monthly)
  }

  /** The rewritten cell is the canonical form of the original one. */
  lemma {:induction false} NormalizeColumnCell(f: Frame, col: string, monthly: bool, i: nat)
    requires i < |f|
    ensures NormalizeColumn(f, col, monthly)[i][col] == NormalizeDateCell(Get(f[i], col), monthly)
    decreases i
  {
    if i > 0 {
      NormalizeColumnCell(f[1..], col, monthly, i - 1);
    }
  }

  /** The loop of lines 122-135: every listed column present in the batch is rewritten. */
  function NormalizeColumns(f: Frame, cols: seq<string>, monthly: bool): (g: Frame)
    ensures |g| == |f|
    decreases |cols|
  {
    if cols == [] then f
    else
      var f1 := if cols[0] in ColumnsOf(f) then NormalizeColumn(f, cols[0], monthly) else f;
      NormalizeColumns(f1, cols[1..], monthly)
  }

  /** The columns to rewrite: the configured list plus the table's date column when not yet listed. */
  function DateColumnsToFix(entry: Config, dateColumn: Option<string>): (cols: seq<string>)
    ensures forall c :: c in entry.dateColumns ==> c in cols
    ensures Truthy(dateColumn) ==> dateColumn.value in cols
  {
    if Truthy(dateColumn) && dateColumn.value !in entry.dateColumns
    then entry.dateColumns + [dateColumn.value]
    else entry.dateColumns
  }

  /**
   * The entry after the in-place `append` of lines 117-120: its `date_columns`
   * list is the one just computed.
   */
  function AfterFix(entry: Config, dateColumn: Option<string>): Config {
    entry.(dateColumns := DateColumnsToFix(entry, dateColumn))
  }

  /**
   * The append changes the entry at most once per date column: a later call
   * with the same date column rewrites the same columns and leaves the entry
   * as it is, while the entry keeps every column it listed before, in order.
   */
  lemma DateColumnsToFixStable(entry: Config, dateColumn: Option<string>)
    ensures DateColumnsToFix(AfterFix(entry, dateColumn), dateColumn) == DateColumnsToFix(entry, dateColumn)
    ensures AfterFix(AfterFix(entry, dateColumn), dateColumn) == AfterFix(entry, dateColumn)
    ensures entry.dateColumns <= AfterFix(entry, dateColumn).dateColumns
    ensures |AfterFix(entry, dateColumn).dateColumns| <= |entry.dateColumns| + 1
  {
  }

  // ---------------------------------------------------------------------------
  // Normalisation phase (lines 13-159)
  // ---------------------------------------------------------------------------

  function Prepare(tableName: string, tableColumns: seq<string>, df: Frame, keys: seq<string>,
                   dateColumn: Option<string>, entry: Option<Config>): Prepared
  {
    if df == [] then Stop(0)
    else if tableColumns == [] then Stop(-1)
    else if entry.Some? && entry.value.fieldMappings != [] && MappingTargetMissing(entry.value.fieldMappings, tableColumns) then Stop(-1)
    else
      var renamed := if entry.Some? then ApplyMappings(df, entry.value.fieldMappings) else df;
      var fin := if entry.Some? && "ann_date" in keys && "end_date" in keys then FinanceHook(renamed, keys) else Ready(renamed);
      if !fin.Ready? then fin
      else
        var mf := if tableName == "moneyflow_cnt_ths" then MoneyflowHook(fin.rows) else fin;
        if !mf.Ready? then mf
        else if entry.None? then Raise
        else
          var cfg := entry.value;
          var monthly := cfg.apiDateFormat == Some("YYYYMM");
          var dated := NormalizeColumns(mf.rows, DateColumnsToFix(cfg, dateColumn), monthly);
          if dateColumn.Some? && dateColumn.value in ColumnsOf(dated) then
            var kept := Filter(dated, (r: Row) => Get(r, dateColumn.value).Some?);
            if kept == [] then Stop(0) else Ready(kept)
          else Ready(dated)
  }

  // ---------------------------------------------------------------------------
  // Write phase (lines 169-235)
  // ---------------------------------------------------------------------------

  /** A stored row the bounded replace deletes: date BETWEEN start AND end, and the ts_code when one is given. */
  predicate InReplaceScope(r: Row, dateColumn: string, start: string, end: string, tsCode: Option<string>) {
    Get(r, dateColumn).Some? && StrLe(start, Get(r, dateColumn).value) && StrLe(Get(r, dateColumn).value, end)
    && (Truthy(tsCode) ==> Get(r, "ts_code") == tsCode)
  }

  function DeleteScope(rows: Frame, dateColumn: string, start: string, end: string, tsCode: Option<string>): (kept: Frame)
    ensures forall r :: r in kept <==> r in rows && !InReplaceScope(r, dateColumn, start, end, tsCode)
  {
    Filter(rows, (r: Row) => !InReplaceScope(r, dateColumn, start, end, tsCode))
  }

  /** The rows `insert_new` adds: batch rows with no SQL key match among the stored rows. */
  function InsertNewRows(stored: Frame, batch: Frame, keys: seq<string>): (ins: Frame)
    ensures forall b :: b in ins <==> b in batch && NoSqlMatch(stored, b, keys)
  {
    Filter(batch, (b: Row) => NoSqlMatch(stored, b, keys))
  }

  /** The table after a write and the code returned. */
  datatype Write = Write(rows: Frame, code: int)

  predicate ReplaceBounded(mode: string, start: Option<string>, end: Option<string>) {
    mode == "replace" && Truthy(start) && Truthy(end)
  }

  /** The rows left by the DELETE of lines 171-191. */
  function DeletePhase(rows: Frame, dateColumn: Option<string>, mode: string,
                       start: Option<string>, end: Option<string>, tsCode: Option<string>): Frame
    requires ReplaceBounded(mode, start, end) ==> Truthy(dateColumn)
  {
    if ReplaceBounded(mode, start, end) then DeleteScope(rows, dateColumn.value, start.value, end.value, tsCode)
    else if mode == "replace" then []
    else rows
  }

  /** `INSERT ... SELECT <batch columns>` names only columns the table has. */
  predicate ColumnsFit(batch: Frame, columns: seq<string>) {
    forall c :: c in ColumnsOf(batch) ==> c in columns
  }

  /** The key list of `insert_new` is non-empty and every key is a column of both sides. */
  predicate KeysUsable(batch: Frame, keys: seq<string>, columns: seq<string>) {
    keys != [] && forall k :: k in keys ==> k in columns && k in ColumnsOf(batch)
  }

  /** The INSERT of lines 194-226 on top of the rows the delete left; a failing insert returns -1. */
  function InsertPhase(t: Table, afterDelete: Frame, batch: Frame, keys: seq<string>, mode: string): Write {
    if !ColumnsFit(batch, t.columns) || (mode == "insert_new" && !KeysUsable(batch, keys, t.columns)) then Write(afterDelete, -1)
    else
      var ins := if mode == "insert_new" then InsertNewRows(afterDelete, batch, keys) else batch;
      if !IndexHolds(afterDelete + ins, t.index) then Write(afterDelete, -1)
      else Write(afterDelete + ins, if mode == "insert_new" then |ins| else |batch|)
  }

  /** DELETE then INSERT; each statement that fails makes the call return -1, keeping earlier statements' effects. */
  function WriteRows(t: Table, batch: Frame, keys: seq<string>, dateColumn: Option<string>, mode: string,
                     start: Option<string>, end: Option<string>, tsCode: Option<string>): Write
  {
    if ReplaceBounded(mode, start, end)
       && (!Truthy(dateColumn) || dateColumn.value !in t.columns || (Truthy(tsCode) && "ts_code" !in t.columns))
    then Write(t.rows, -1)
    else InsertPhase(t, DeletePhase(t.rows, dateColumn, mode, start, end, tsCode), batch, keys, mode)
  }

  /** The database state `store_data` reads and writes. */
  datatype State = State(tables: map<string, Table>, meta: Option<map<string, Coverage>>)

  /** The state after a call to `store_data`, and what the call did. */
  datatype Stored = Stored(state: State, result: StoreResult)

  /**
   * `store_data` as a function of the state: an early exit or a raise leaves the
   * state alone; otherwise the table's rows are those of the write, and the
   * metadata row is refreshed from the whole table when the write succeeded.
   */
  function Store(s: State, tableName: string, df: Frame, keys: seq<string>, dateColumn: Option<string>,
                 mode: string, start: Option<string>, end: Option<string>, tsCode: Option<string>,
                 entry: Option<Config>): (o: Stored)
    ensures o.result.Returned? && o.result.code < 0 ==> o.state.meta == s.meta
    ensures o.state.tables.Keys == s.tables.Keys
    ensures forall n :: n in s.tables && n != tableName ==> o.state.tables[n] == s.tables[n]
    ensures tableName in s.tables ==>
      o.state.tables[tableName].columns == s.tables[tableName].columns && o.state.tables[tableName].index == s.tables[tableName].index
  {
    var cols := if tableName in s.tables then s.tables[tableName].columns else [];
    match Prepare(tableName, cols, df, keys, dateColumn, entry)
    case Stop(c) => Stored(s, Returned(c))
    case Raise => Stored(s, Raised)
    case Ready(rows) =>
      var t := s.tables[tableName];
      var w := WriteRows(t, rows, keys, dateColumn, mode, start, end, tsCode);
      var t2 := t.(rows := w.rows);
      var meta := if w.code >= 0 && s.meta.Some?
                  then Some(Upsert(s.meta.value, tableName, ComputeCoverage(t2, dateColumn, false)))
                  else s.meta;
      Stored(State(s.tables[tableName := t2], meta), Returned(w.code))
  }

  type Writer = (State, string, Frame, seq<string>, Option<string>, string, Option<string>, Option<string>,
                 Option<string>, Option<Config>) -> Stored

  ghost predicate Writes(w: Writer) {
    forall s, t, df, keys, dc, mode, st, en, ts, cfg {:trigger Store(s, t, df, keys, dc, mode, st, en, ts, cfg)} ::
      w(s, t, df, keys, dc, mode, st, en, ts, cfg) == Store(s, t, df, keys, dc, mode, st, en, ts, cfg)
  }

  /** `store_data` on the database: the new state and the result are those of `Store`. */
  method StoreData(db: Database, tableName: string, df: Frame, keys: seq<string>, dateColumn: Option<string>,
                   mode: string, start: Option<string>, end: Option<string>, tsCode: Option<string>,
                   entry: Option<Config>) returns (r: StoreResult)
    modifies db
    ensures Stored(State(db.tables, db.meta), r)
         == Store(State(old(db.tables), old(db.meta)), tableName, df, keys, dateColumn, mode, start, end, tsCode, entry)
  {
    var cols := if tableName in db.tables then db.tables[tableName].columns else [];
    var p := Prepare(tableName, cols, df, keys, dateColumn, entry);
    if p.Stop? {
      return Returned(p.code);
    }
    if p.Raise? {
      return Raised;
    }
    var t := db.tables[tableName];
    var w := WriteRows(t, p.rows, keys, dateColumn, mode, start, end, tsCode);
    db.tables := db.tables[tableName := t.(rows := w.rows)];
    if w.code >= 0 {
      UpdateMetadata(db, tableName, dateColumn, false);
    }
    r := Returned(w.code);
  }

  // ---------------------------------------------------------------------------
  // Properties
  // ---------------------------------------------------------------------------

  /** Every early exit of lines 13-40 happens before the table is touched, with the code the source returns. */
  lemma EarlyExits(tableName: string, tableColumns: seq<string>, df: Frame, keys: seq<string>,
                   dateColumn: Option<string>, entry: Option<Config>)
    ensures df == [] ==> Prepare(tableName, tableColumns, df, keys, dateColumn, entry) == Stop(0)
    ensures df != [] && tableColumns == [] ==> Prepare(tableName, tableColumns, df, keys, dateColumn, entry) == Stop(-1)
    ensures df != [] && tableColumns != [] && entry.Some? && MappingTargetMissing(entry.value.fieldMappings, tableColumns)
      ==> Prepare(tableName, tableColumns, df, keys, dateColumn, entry) == Stop(-1)
  {
  }

  /** After the finance hook no row has a blank announcement date, and a non-blank one is never changed. */
  lemma FinanceHookFills(f: Frame, keys: seq<string>)
    requires "ann_date" in ColumnsOf(f)
    ensures var p := FinanceHook(f, keys);
      p.Ready? ==> forall r :: r in p.rows ==> !Blank(Get(r, "ann_date"))
  {
    var filled := Filter(AnnDateFill(f), (r: Row) => !Blank(Get(r, "ann_date")));
    if "update_flag" in keys {
      var g := DefaultFlag(filled);
      forall r | r in g ensures !Blank(Get(r, "ann_date")) {
        var i :| 0 <= i < |g| && g[i] == r;
        assert filled[i] in filled;
      }
    }
  }

  /** The fill order: f_ann_date first, then end_date. */
  lemma AnnDateFillOrder(f: Frame, i: nat)
    requires i < |f| && "f_ann_date" in ColumnsOf(f) && "end_date" in ColumnsOf(f)
    ensures var g := AnnDateFill(f);
      (!Blank(Get(f[i], "ann_date")) ==> Get(g[i], "ann_date") == Get(f[i], "ann_date"))
      && (Blank(Get(f[i], "ann_date")) && !Blank(Get(f[i], "f_ann_date")) ==> Get(g[i], "ann_date") == Get(f[i], "f_ann_date"))
      && (Blank(Get(f[i], "ann_date")) && Blank(Get(f[i], "f_ann_date")) ==> Get(g[i], "ann_date") == Get(f[i], "end_date"))
  {
    var f1 := FillColumn(f, "ann_date", "f_ann_date");
    FillKeepsColumn(f, "ann_date", "f_ann_date", "end_date");
    var g := FillColumn(f1, "ann_date", "end_date");
    assert AnnDateFill(f) == g;
    assert g[i] == FillBlankFrom(FillBlankFrom(f[i], "ann_date", "f_ann_date"), "ann_date", "end_date");
    AnnFillRow(f[i]);
  }

  lemma AnnFillRow(r: Row)
    ensures var out := FillBlankFrom(FillBlankFrom(r, "ann_date", "f_ann_date"), "ann_date", "end_date");
      (!Blank(Get(r, "ann_date")) ==> Get(out, "ann_date") == Get(r, "ann_date"))
      && (Blank(Get(r, "ann_date")) && !Blank(Get(r, "f_ann_date")) ==> Get(out, "ann_date") == Get(r, "f_ann_date"))
      && (Blank(Get(r, "ann_date")) && Blank(Get(r, "f_ann_date")) ==> Get(out, "ann_date") == Get(r, "end_date"))
  {
    var r1 := FillBlankFrom(r, "ann_date", "f_ann_date");
    if Blank(Get(r, "ann_date")) {
      assert Get(r1, "end_date") == Get(r, "end_date");
    }
  }

  lemma FillKeepsColumn(f: Frame, target: string, src: string, c: string)
    requires c in ColumnsOf(f)
    ensures c in ColumnsOf(FillColumn(f, target, src))
  {
    var r :| r in f && c in r;
    var j :| 0 <= j < |f| && f[j] == r;
    assert c in FillColumn(f, target, src)[j];
  }

  /** After the moneyflow_cnt_ths hook every row has a code, and a blank one came from the name map. */
  lemma MoneyflowHookCodes(f: Frame)
    requires "ts_code" in ColumnsOf(f) && "name" in ColumnsOf(f)
    ensures var p := MoneyflowHook(f);
      p.Ready? ==> forall r :: r in p.rows ==> !Blank(Get(r, "ts_code"))
    ensures var p := MoneyflowHook(f);
      p.Ready? ==> forall r :: r in p.rows ==>
        (exists x :: x in f && (x == r || (Blank(Get(x, "ts_code")) && r == x["ts_code" := CodeForName(Get(x, "name"))])))
  {
    var filled := seq(|f|, i requires 0 <= i < |f| =>
      if Blank(Get(f[i], "ts_code")) then f[i]["ts_code" := CodeForName(Get(f[i], "name"))] else f[i]);
    forall r | r in filled
      ensures exists x :: x in f && (x == r || (Blank(Get(x, "ts_code")) && r == x["ts_code" := CodeForName(Get(x, "name"))]))
    {
      var i :| 0 <= i < |filled| && filled[i] == r;
      assert f[i] in f;
    }
  }

  /** A rewritten date cell is '' or a canonical date string (8 digits, or 6 for monthly data). */
  lemma NormalizedCellIsCanonical(v: Value, monthly: bool)
    ensures var out := NormalizeDateCell(v, monthly);
      out.value == "" || (!monthly && IsDateString(out.value)) || (monthly && |out.value| == 6 && AllDigits(out.value))
  {
    if v.Some? && !monthly {
      match Parse(v.value)
      case Some(d) => ParseFormat(d);
      case None =>
        match ParseDashed(v.value)
        case Some(d) => ParseFormat(d);
        case None =>
    }
  }

  /** Rewriting is idempotent: a canonical cell is left as it is. */
  lemma NormalizeIdempotent(v: Value)
    ensures NormalizeDateCell(NormalizeDateCell(v, false), false) == NormalizeDateCell(v, false)
  {
    var once := NormalizeDateCell(v, false);
    if once.value != "" {
      NormalizedCellIsCanonical(v, false);
      FormatParse(once.value);
    } else {
      assert Parse("").None?;
      assert ParseDashed("").None?;
    }
  }

  /** Date rewriting never produces null, so the null-date filter of lines 152-159 drops nothing. */
  lemma NullFilterKeepsAll(f: Frame, cols: seq<string>, col: string, monthly: bool)
    requires col in cols && col in ColumnsOf(f)
    ensures var g := NormalizeColumns(f, cols, monthly);
      Filter(g, (r: Row) => Get(r, col).Some?) == g
  {
    NormalizeColumnsNonNull(f, cols, col, monthly);
    var g := NormalizeColumns(f, cols, monthly);
    FilterAll(g, (r: Row) => Get(r, col).Some?);
  }

  lemma {:induction false} NormalizeColumnsNonNull(f: Frame, cols: seq<string>, col: string, monthly: bool)
    requires col in cols && col in ColumnsOf(f)
    ensures forall r :: r in NormalizeColumns(f, cols, monthly) ==> Get(r, col).Some?
    decreases |cols|
  {
    var f1 := if cols[0] in ColumnsOf(f) then NormalizeColumn(f, cols[0], monthly) else f;
    if cols[0] == col {
      assert forall r :: r in f1 ==> Get(r, col).Some?;
      StaysNonNull(f1, cols[1..], col, monthly);
    } else {
      assert col in ColumnsOf(f1) by {
        var r :| r in f && col in r;
        var j :| 0 <= j < |f| && f[j] == r;
        assert col in f1[j];
      }
      NormalizeColumnsNonNull(f1, cols[1..], col, monthly);
    }
  }

  lemma {:induction false} StaysNonNull(f: Frame, cols: seq<string>, col: string, monthly: bool)
    requires forall r :: r in f ==> Get(r, col).Some?
    ensures forall r :: r in NormalizeColumns(f, cols, monthly) ==> Get(r, col).Some?
    decreases |cols|
  {
    if cols != [] {
      var f1 := if cols[0] in ColumnsOf(f) then NormalizeColumn(f, cols[0], monthly) else f;
      forall r | r in f1 ensures Get(r, col).Some? {
        var j :| 0 <= j < |f1| && f1[j] == r;
        assert f[j] in f;
      }
      StaysNonNull(f1, cols[1..], col, monthly);
    }
  }

  /**
   * `insert_new` is idempotent for batches whose key cells are all non-null: a second
   * identical write inserts nothing.
   */
  lemma InsertNewIdempotent(stored: Frame, batch: Frame, keys: seq<string>)
    requires forall b, i :: b in batch && 0 <= i < |keys| ==> Get(b, keys[i]).Some?
    ensures InsertNewRows(stored + InsertNewRows(stored, batch, keys), batch, keys) == []
  {
    var ins := InsertNewRows(stored, batch, keys);
    forall b | b in batch ensures !NoSqlMatch(stored + ins, b, keys) {
      if b in ins {
        assert SqlKeyMatch(b, b, keys);
        assert b in stored + ins;
      } else {
        var s :| s in stored && SqlKeyMatch(b, s, keys);
        assert s in stored + ins;
      }
    }
    FilterNone(batch, (b: Row) => NoSqlMatch(stored + ins, b, keys));
  }

  /** With a null key cell SQL equality never matches, so the same row is inserted again by every write. */
  lemma NullKeyReinserted(stored: Frame, b: Row, keys: seq<string>, i: nat)
    requires i < |keys| && Get(b, keys[i]).None?
    ensures InsertNewRows(stored, [b], keys) == [b]
  {
    forall s | s in stored ensures !SqlKeyMatch(b, s, keys) {
      assert !(Get(b, keys[i]).Some?);
    }
  }

  /** `insert_new` never alters or removes a stored row; it only appends. */
  lemma InsertNewAppends(t: Table, batch: Frame, keys: seq<string>, dateColumn: Option<string>)
    ensures var w := WriteRows(t, batch, keys, dateColumn, "insert_new", None, None, None);
      w.rows[..|t.rows|] == t.rows && (w.code >= 0 ==> |w.rows| == |t.rows| + w.code)
  {
  }

  /**
   * A bounded replace leaves every stored row outside its scope in place and removes every
   * row inside it, whether or not the insert that follows succeeds.
   */
  lemma ReplaceScoped(t: Table, batch: Frame, keys: seq<string>, col: string, start: string, end: string,
                      tsCode: Option<string>, s: Row)
    requires start != "" && end != "" && col != "" && col in t.columns && (Truthy(tsCode) ==> "ts_code" in t.columns)
    requires s in t.rows
    ensures var w := WriteRows(t, batch, keys, Some(col), "replace", Some(start), Some(end), tsCode);
      (!InReplaceScope(s, col, start, end, tsCode) ==> s in w.rows)
      && (InReplaceScope(s, col, start, end, tsCode) && s !in batch ==> s !in w.rows)
  {
  }

  /** `store_data` with `insert_new` keeps every stored row of every table in place: it only appends. */
  lemma StoreInsertNewKeeps(s: State, tableName: string, df: Frame, keys: seq<string>, dateColumn: Option<string>,
                            start: Option<string>, end: Option<string>, tsCode: Option<string>, entry: Option<Config>,
                            n: string)
    requires n in s.tables
    ensures var o := Store(s, tableName, df, keys, dateColumn, "insert_new", start, end, tsCode, entry);
      n in o.state.tables && s.tables[n].rows <= o.state.tables[n].rows
  {
    if n == tableName {
      var t := s.tables[n];
      match Prepare(tableName, t.columns, df, keys, dateColumn, entry)
      case Stop(_) =>
      case Raise =>
      case Ready(rows) =>
        var w := WriteRows(t, rows, keys, dateColumn, "insert_new", start, end, tsCode);
        assert DeletePhase(t.rows, dateColumn, "insert_new", start, end, tsCode) == t.rows;
        assert t.rows <= w.rows;
    }
  }

  /** A `replace` bounded by [start, end] keeps every stored row of the table outside that scope. */
  lemma StoreReplaceKeeps(s: State, tableName: string, df: Frame, keys: seq<string>, col: string, start: string,
                          end: string, tsCode: Option<string>, entry: Option<Config>, r: Row)
    requires tableName in s.tables && r in s.tables[tableName].rows
    requires start != "" && end != "" && !InReplaceScope(r, col, start, end, tsCode)
    ensures var o := Store(s, tableName, df, keys, Some(col), "replace", Some(start), Some(end), tsCode, entry);
      tableName in o.state.tables && r in o.state.tables[tableName].rows
  {
    var t := s.tables[tableName];
    match Prepare(tableName, t.columns, df, keys, Some(col), entry)
    case Stop(_) =>
    case Raise =>
    case Ready(rows) =>
      if col != "" && col in t.columns && (Truthy(tsCode) ==> "ts_code" in t.columns) {
        var kept := DeletePhase(t.rows, Some(col), "replace", Some(start), Some(end), tsCode);
        assert r in kept;
        var w := InsertPhase(t, kept, rows, keys, "replace");
        assert r in w.rows;
      }
  }

  /** Replace without both bounds empties the table first, then inserts the whole batch. */
  lemma ReplaceUnbounded(t: Table, batch: Frame, keys: seq<string>, dateColumn: Option<string>,
                         start: Option<string>, end: Option<string>)
    requires !Truthy(start) || !Truthy(end)
    requires ColumnsFit(batch, t.columns)
    requires IndexHolds(batch, t.index)
    ensures WriteRows(t, batch, keys, dateColumn, "replace", start, end, None) == Write(batch, |batch|)
  {
    InsertIntoEmpty(t, batch, keys);
  }

  lemma InsertIntoEmpty(t: Table, batch: Frame, keys: seq<string>)
    requires ColumnsFit(batch, t.columns)
    requires IndexHolds(batch, t.index)
    ensures InsertPhase(t, [], batch, keys, "replace") == Write(batch, |batch|)
  {
    assert [] + batch == batch;
  }

  /** The count a caller adds up for one `store_data` result: negative codes count as nothing. */
  function Added(code: int): (n: nat)
    ensures n == 0 <==> code <= 0
    ensures code > 0 ==> n == code
  {
    if code > 0 then code else 0
  }

  /** A writer that is `store_data` only appends under `insert_new`. */
  lemma WriterKeeps(w: Writer, s: State, tableName: string, df: Frame, keys: seq<string>, dateColumn: Option<string>,
                    entry: Option<Config>, n: string)
    requires Writes(w) && n in s.tables
    ensures var o := w(s, tableName, df, keys, dateColumn, "insert_new", None, None, None, entry);
      n in o.state.tables && s.tables[n].rows <= o.state.tables[n].rows
  {
    StoreInsertNewKeeps(s, tableName, df, keys, dateColumn, None, None, None, entry, n);
    assert w(s, tableName, df, keys, dateColumn, "insert_new", None, None, None, entry)
        == Store(s, tableName, df, keys, dateColumn, "insert_new", None, None, None, entry);
  }
}
