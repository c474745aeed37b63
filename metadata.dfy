/**
 * Coverage metadata (src/tushare_duckdb/metadata.py): one row per synchronised
 * table holding MIN and MAX of its date column and its row count, recomputed
 * from the whole stored table and upserted on `table_name`.
 */
module Metadata {
  import opened Common
  import opened Db

  /** The metadata row `update_metadata` computes for table `t`. */
  function ComputeCoverage(t: Table, dateColumn: Option<string>, filterNullDates: bool): Coverage
  {
    if Truthy(dateColumn) && dateColumn.value in t.columns then
      var vs := DateValues(t.rows, dateColumn.value);
      Coverage(MinOf(vs), MaxOf(vs), if filterNullDates then |vs| else |t.rows|)
    else
      Coverage(None, None, |t.rows|)
  }

  /** The stored min_date never exceeds max_date, and every non-null date of the table lies between them. */
  lemma CoverageBounds(t: Table, col: string, filterNullDates: bool, r: Row)
    requires col != "" && col in t.columns && r in t.rows && Get(r, col).Some?
    ensures var c := ComputeCoverage(t, Some(col), filterNullDates);
      c.minDate.Some? && c.maxDate.Some? &&
      StrLe(c.minDate.value, Get(r, col).value) && StrLe(Get(r, col).value, c.maxDate.value) &&
      StrLe(c.minDate.value, c.maxDate.value)
  {
    var vs := DateValues(t.rows, col);
    var v := Get(r, col).value;
    assert v in vs;
    StrLeTrans(MinOf(vs).value, v, MaxOf(vs).value);
  }

  /** Without the filter the count includes null-date rows; with it they are excluded. */
  lemma CountWithAndWithoutFilter(t: Table, col: string)
    requires col != "" && col in t.columns
    ensures ComputeCoverage(t, Some(col), false).count == |t.rows|
    ensures ComputeCoverage(t, Some(col), true).count == |t.rows| - |Filter(t.rows, (r: Row) => Get(r, col).None?)|
  {
    NullSplit(t.rows, col);
  }

  lemma {:induction false} NullSplit(rows: Frame, col: string)
    ensures |DateValues(rows, col)| + |Filter(rows, (r: Row) => Get(r, col).None?)| == |rows|
  {
    if rows != [] {
      NullSplit(rows[1..], col);
    }
  }

  /** The upsert of `update_metadata`: one row per table name, others untouched. */
  function Upsert(meta: map<string, Coverage>, table: string, c: Coverage): (m: map<string, Coverage>)
    ensures m.Keys == meta.Keys + {table}
    ensures m[table] == c
    ensures forall n :: n in meta && n != table ==> m[n] == meta[n]
  {
    meta[table := c]
  }

  /** `init_metadata`: create the empty metadata table only when it is absent. */
  method InitMetadata(db: Database)
    modifies db
    ensures db.tables == old(db.tables)
    ensures old(db.meta).Some? ==> db.meta == old(db.meta)
    ensures old(db.meta).None? ==> db.meta == Some(map[])
  {
    if db.meta.None? {
      db.meta := Some(map[]);
    }
  }

  /**
   * `update_metadata`: a no-op when the metadata table or the target table is
   * missing; otherwise the coverage of the whole stored table is upserted.
   */
  method UpdateMetadata(db: Database, table: string, dateColumn: Option<string>, filterNullDates: bool)
    modifies db
    ensures db.tables == old(db.tables)
    ensures old(db.meta).None? || table !in old(db.tables) ==> db.meta == old(db.meta)
    ensures old(db.meta).Some? && table in old(db.tables) ==>
      db.meta == Some(Upsert(old(db.meta).value, table, ComputeCoverage(old(db.tables)[table], dateColumn, filterNullDates)))
  {
    if db.meta.None? {
      return;
    }
    if table !in db.tables {
      return;
    }
    var c := ComputeCoverage(db.tables[table], dateColumn, filterNullDates);
    db.meta := Some(Upsert(db.meta.value, table, c));
  }
}
