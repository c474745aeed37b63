/**
 * The DuckDB database the engine writes to, seen as named tables of rows plus
 * the `metadata` coverage table (absent until `init_metadata` creates it).
 */
module Db {
  import opened Common

  /** A stored table: its declared columns, its rows in insertion order and the
      columns of its unique index (empty when the table has none). */
  datatype Table = Table(columns: seq<string>, rows: Frame, index: seq<string>)

  /** One row of the `metadata` table: MIN and MAX of the date column and COUNT(*). */
  datatype Coverage = Coverage(minDate: Value, maxDate: Value, count: nat)

  class Database {
    var tables: map<string, Table>
    /** None while the `metadata` table does not exist. */
    var meta: Option<map<string, Coverage>>

    constructor (tables0: map<string, Table>, meta0: Option<map<string, Coverage>>)
      ensures tables == tables0 && meta == meta0
    {
      tables := tables0;
      meta := meta0;
    }
  }

  /** The column set of a data frame: every column some row carries (pandas `concat` unions them). */
  function ColumnsOf(f: Frame): (cols: set<string>) {
    set r, c | r in f && c in r :: c
  }

  /** The non-null values of column `col`, in row order: what SQL aggregates over. */
  function DateValues(rows: Frame, col: string): (vs: seq<string>)
    ensures |vs| <= |rows|
    ensures forall v :: v in vs <==> exists r :: r in rows && Get(r, col) == Some(v)
  {
    if rows == [] then []
    else
      var rest := DateValues(rows[1..], col);
      assert forall r :: r in rows <==> r == rows[0] || r in rows[1..];
      match Get(rows[0], col)
      case Some(v) => [v] + rest
      case None => rest
  }

  /** SQL MIN over VARCHAR: the smallest value, NULL for no values. */
  function MinOf(vs: seq<string>): (m: Option<string>)
    ensures m.None? <==> vs == []
    ensures m.Some? ==> m.value in vs && forall v :: v in vs ==> StrLe(m.value, v)
  {
    if vs == [] then None
    else
      var rest := MinOf(vs[1..]);
      if rest.None? then
        StrLeRefl(vs[0]);
        Some(vs[0])
      else
        var m := MinStr(vs[0], rest.value);
        forall v | v in vs ensures StrLe(m, v) {
          if v != vs[0] {
            assert v in vs[1..];
            StrLeTrans(m, rest.value, v);
          }
        }
        Some(m)
  }

  /** SQL MAX over VARCHAR: the largest value, NULL for no values. */
  function MaxOf(vs: seq<string>): (m: Option<string>)
    ensures m.None? <==> vs == []
    ensures m.Some? ==> m.value in vs && forall v :: v in vs ==> StrLe(v, m.value)
  {
    if vs == [] then None
    else
      var rest := MaxOf(vs[1..]);
      if rest.None? then
        StrLeRefl(vs[0]);
        Some(vs[0])
      else
        var m := MaxStr(vs[0], rest.value);
        forall v | v in vs ensures StrLe(v, m) {
          if v != vs[0] {
            assert v in vs[1..];
            StrLeTrans(v, rest.value, m);
          }
        }
        Some(m)
  }

  /** SQL `a.k = b.k` over every key column: NULL on either side never matches. */
  predicate SqlKeyMatch(a: Row, b: Row, keys: seq<string>) {
    forall i :: 0 <= i < |keys| ==> Get(a, keys[i]).Some? && Get(a, keys[i]) == Get(b, keys[i])
  }

  /** `NOT EXISTS (SELECT 1 FROM table m WHERE m.k = t.k AND ...)` */
  predicate NoSqlMatch(stored: Frame, b: Row, keys: seq<string>) {
    forall s :: s in stored ==> !SqlKeyMatch(b, s, keys)
  }

  /** A unique index on `index` holds: no two rows with all index values non-null agree on them. */
  predicate IndexHolds(rows: Frame, index: seq<string>) {
    index == [] || forall i, j :: 0 <= i < j < |rows| ==> !SqlKeyMatch(rows[i], rows[j], index)
  }
}
