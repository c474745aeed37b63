/**
 * Shared vocabulary of the synchronisation engine: nullable cell values, rows and
 * frames, key projection, filtering, de-duplication and the lexicographic string
 * order that DuckDB and Python use to compare YYYYMMDD date strings.
 */
module Common {

  datatype Option<T> = None | Some(value: T)

  /** A cell of a data frame or a stored table: a string or SQL/pandas null. */
  type Value = Option<string>

  /** A record: column name to cell. A column absent from the map reads as null. */
  type Row = map<string, Value>

  /** A data frame or a stored table, in row order. */
  type Frame = seq<Row>

  function Get(r: Row, c: string): Value {
    if c in r then r[c] else None
  }

  /** `str.lower()` on ASCII letters. */
  function LowerChar(c: char): char {
    if 'A' <= c <= 'Z' then (c as int + 32) as char else c
  }

  function Lower(s: string): (l: string)
    ensures |l| == |s| && forall i :: 0 <= i < |s| ==> l[i] == LowerChar(s[i])
  {
    seq(|s|, i requires 0 <= i < |s| => LowerChar(s[i]))
  }

  /** A Python-truthy optional string: present and not ''. */
  predicate Truthy(o: Option<string>) {
    o.Some? && o.value != ""
  }

  /** A cell that is null or the empty string (the "blank" test of the storage hooks). */
  predicate Blank(v: Value) {
    v.None? || v.value == ""
  }

  /** pandas `dropna(how='all')` drops exactly the rows whose cells are all null. */
  predicate AllNull(r: Row) {
    forall c :: c in r ==> r[c].None?
  }

  /** The values of a row on the given key columns, in key order. */
  function Key(r: Row, keys: seq<string>): (k: seq<Value>)
    ensures |k| == |keys|
    ensures forall i :: 0 <= i < |keys| ==> k[i] == Get(r, keys[i])
  {
    seq(|keys|, i requires 0 <= i < |keys| => Get(r, keys[i]))
  }

  /** Order-preserving filter. */
  function Filter<T(!new)>(s: seq<T>, p: T -> bool): (r: seq<T>)
    ensures |r| <= |s|
    ensures forall x :: x in r <==> x in s && p(x)
  {
    if s == [] then []
    else if p(s[0]) then [s[0]] + Filter(s[1..], p)
    else Filter(s[1..], p)
  }

  lemma {:induction false} FilterAll<T(!new)>(s: seq<T>, p: T -> bool)
    requires forall x :: x in s ==> p(x)
    ensures Filter(s, p) == s
  {
    if s != [] {
      FilterAll(s[1..], p);
    }
  }

  lemma {:induction false} FilterNone<T(!new)>(s: seq<T>, p: T -> bool)
    requires forall x :: x in s ==> !p(x)
    ensures Filter(s, p) == []
  {
    if s != [] {
      FilterNone(s[1..], p);
    }
  }

  lemma {:induction false} FilterConcat<T(!new)>(a: seq<T>, b: seq<T>, p: T -> bool)
    ensures Filter(a + b, p) == Filter(a, p) + Filter(b, p)
  {
    if a == [] {
      assert a + b == b;
    } else {
      assert (a + b)[0] == a[0];
      assert (a + b)[1..] == a[1..] + b;
      FilterConcat(a[1..], b, p);
      if p(a[0]) {
        assert Filter(a + b, p) == [a[0]] + (Filter(a[1..], p) + Filter(b, p));
      }
    }
  }

  /** Filtering a list extended by one element. */
  lemma FilterSnoc<T(!new)>(s: seq<T>, x: T, p: T -> bool)
    ensures Filter(s + [x], p) == if p(x) then Filter(s, p) + [x] else Filter(s, p)
  {
    FilterConcat(s, [x], p);
    assert [x][1..] == [];
  }

  /** Filtering one more element of a prefix. */
  lemma FilterPrefixStep<T(!new)>(s: seq<T>, i: nat, p: T -> bool)
    requires i < |s|
    ensures Filter(s[..i + 1], p) == if p(s[i]) then Filter(s[..i], p) + [s[i]] else Filter(s[..i], p)
  {
    var pre, x := s[..i], s[i];
    assert s[..i + 1] == pre + [x];
    FilterSnoc(pre, x, p);
  }

  /** The append loop that builds a filtered list, element by element. */
  method FilterInOrder<T(!new)>(s: seq<T>, p: T -> bool) returns (r: seq<T>)
    ensures r == Filter(s, p)
  {
    r := [];
    var i := 0;
    while i < |s|
      invariant 0 <= i <= |s| && r == Filter(s[..i], p)
      decreases |s| - i
    {
      FilterPrefixStep(s, i, p);
      if p(s[i]) {
        r := r + [s[i]];
      }
      i := i + 1;
    }
    assert s[..i] == s;
  }

  /** True when some row of `f` has key `k`. */
  predicate HasKey(f: Frame, keys: seq<string>, k: seq<Value>) {
    exists x :: x in f && Key(x, keys) == k
  }

  /**
   * pandas `drop_duplicates(subset=keys, keep='last')`: a row survives when no later
   * row carries the same key; survivors keep their order.
   */
  function DedupLast(f: Frame, keys: seq<string>): (r: Frame)
    ensures |r| <= |f|
    ensures forall x :: x in r ==> x in f
  {
    if f == [] then []
    else if HasKey(f[1..], keys, Key(f[0], keys)) then DedupLast(f[1..], keys)
    else [f[0]] + DedupLast(f[1..], keys)
  }

  /** No two rows of `f` agree on every key column. */
  predicate KeysUnique(f: Frame, keys: seq<string>) {
    forall i, j :: 0 <= i < j < |f| ==> Key(f[i], keys) != Key(f[j], keys)
  }

  lemma {:induction false} DedupLastUnique(f: Frame, keys: seq<string>)
    ensures KeysUnique(DedupLast(f, keys), keys)
  {
    if f != [] {
      DedupLastUnique(f[1..], keys);
      var rest := DedupLast(f[1..], keys);
      if !HasKey(f[1..], keys, Key(f[0], keys)) {
        var r := [f[0]] + rest;
        forall i, j | 0 <= i < j < |r| ensures Key(r[i], keys) != Key(r[j], keys) {
          if i == 0 {
            assert r[j] in f[1..];
          } else {
            assert r[i] == rest[i - 1] && r[j] == rest[j - 1];
          }
        }
      }
    }
  }

  /** Every key of the input survives de-duplication. */
  lemma {:induction false} DedupLastKeepsKeys(f: Frame, keys: seq<string>, k: seq<Value>)
    requires HasKey(f, keys, k)
    ensures HasKey(DedupLast(f, keys), keys, k)
  {
    var x :| x in f && Key(x, keys) == k;
    if x == f[0] {
      if HasKey(f[1..], keys, k) {
        DedupLastKeepsKeys(f[1..], keys, k);
      } else {
        assert DedupLast(f, keys)[0] == f[0];
      }
    } else {
      assert x in f[1..];
      DedupLastKeepsKeys(f[1..], keys, k);
      var y :| y in DedupLast(f[1..], keys) && Key(y, keys) == k;
      assert y in DedupLast(f, keys);
    }
  }

  /** The surviving row for a key is the last input row with that key. */
  lemma {:induction false} DedupLastIsLast(f: Frame, keys: seq<string>, i: nat)
    requires i < |f|
    requires forall j :: i < j < |f| ==> Key(f[j], keys) != Key(f[i], keys)
    ensures f[i] in DedupLast(f, keys)
  {
    if i == 0 {
      assert !HasKey(f[1..], keys, Key(f[0], keys)) by {
        forall x | x in f[1..] ensures Key(x, keys) != Key(f[0], keys) {
          var j :| 0 <= j < |f[1..]| && f[1..][j] == x;
          assert f[j + 1] == x;
        }
      }
    } else {
      DedupLastIsLast(f[1..], keys, i - 1);
    }
  }

  /**
   * pandas `drop_duplicates(subset=keys)` with the default keep='first': a row survives
   * when no earlier row carries the same key.
   */
  function DedupFirst(f: Frame, keys: seq<string>): (r: Frame)
    ensures |r| <= |f|
    ensures forall x :: x in r ==> x in f
    decreases |f|
  {
    if f == [] then []
    else
      var k := Key(f[0], keys);
      [f[0]] + DedupFirst(Filter(f[1..], (x: Row) => Key(x, keys) != k), keys)
  }

  lemma {:induction false} DedupFirstUnique(f: Frame, keys: seq<string>)
    ensures KeysUnique(DedupFirst(f, keys), keys)
    decreases |f|
  {
    if f != [] {
      var k := Key(f[0], keys);
      var tail := Filter(f[1..], (x: Row) => Key(x, keys) != k);
      DedupFirstUnique(tail, keys);
      var rest := DedupFirst(tail, keys);
      var r := [f[0]] + rest;
      assert DedupFirst(f, keys) == r;
      forall i, j | 0 <= i < j < |r| ensures Key(r[i], keys) != Key(r[j], keys) {
        if i == 0 {
          assert r[j] in rest;
          assert r[j] in tail;
        } else {
          assert r[i] == rest[i - 1] && r[j] == rest[j - 1];
        }
      }
    }
  }

  lemma {:induction false} DedupFirstKeepsKeys(f: Frame, keys: seq<string>, k: seq<Value>)
    requires HasKey(f, keys, k)
    ensures HasKey(DedupFirst(f, keys), keys, k)
    decreases |f|
  {
    var k0 := Key(f[0], keys);
    if k != k0 {
      var x :| x in f && Key(x, keys) == k;
      assert x in f[1..];
      var tail := Filter(f[1..], (y: Row) => Key(y, keys) != k0);
      assert x in tail;
      DedupFirstKeepsKeys(tail, keys, k);
      var y :| y in DedupFirst(tail, keys) && Key(y, keys) == k;
      assert y in DedupFirst(f, keys);
    } else {
      assert f[0] in DedupFirst(f, keys);
    }
  }

  /** Dropping rows keeps the remaining keys unique. */
  lemma {:induction false} FilterKeysUnique(f: Frame, keys: seq<string>, p: Row -> bool)
    requires KeysUnique(f, keys)
    ensures KeysUnique(Filter(f, p), keys)
  {
    if f != [] {
      FilterKeysUnique(f[1..], keys, p);
      if p(f[0]) {
        var r, rest := Filter(f, p), Filter(f[1..], p);
        assert r == [f[0]] + rest;
        forall i, j | 0 <= i < j < |r| ensures Key(r[i], keys) != Key(r[j], keys) {
          if i == 0 {
            assert r[j] in rest;
            var k :| 0 <= k < |f[1..]| && f[1..][k] == r[j];
            assert f[k + 1] == r[j];
          } else {
            assert r[i] == rest[i - 1] && r[j] == rest[j - 1];
          }
        }
      }
    }
  }

  /** No element occurs twice. */
  predicate NoDuplicates<T(==)>(s: seq<T>) {
    forall i, j :: 0 <= i < j < |s| ==> s[i] != s[j]
  }

  lemma {:induction false} FilterNoDuplicates<T(!new)>(s: seq<T>, p: T -> bool)
    requires NoDuplicates(s)
    ensures NoDuplicates(Filter(s, p))
  {
    if s != [] {
      FilterNoDuplicates(s[1..], p);
      if p(s[0]) {
        var r, rest := Filter(s, p), Filter(s[1..], p);
        assert r == [s[0]] + rest;
        forall i, j | 0 <= i < j < |r| ensures r[i] != r[j] {
          if i == 0 {
            assert r[j] in rest;
            var k :| 0 <= k < |s[1..]| && s[1..][k] == r[j];
            assert s[k + 1] == r[j];
          } else {
            assert r[i] == rest[i - 1] && r[j] == rest[j - 1];
          }
        }
      }
    }
  }

  /** Rows of `f` whose key appears nowhere in `stored` (a SQL anti-join on the keys). */
  function AntiJoin(f: Frame, stored: Frame, keys: seq<string>): (r: Frame)
    ensures forall x :: x in r <==> x in f && !HasKey(stored, keys, Key(x, keys))
  {
    Filter(f, (x: Row) => !HasKey(stored, keys, Key(x, keys)))
  }

  // ---------------------------------------------------------------------------
  // Lexicographic order on strings (Python `<=` on str, DuckDB order on VARCHAR)
  // ---------------------------------------------------------------------------

  predicate StrLe(a: string, b: string) {
    if a == [] then true
    else if b == [] then false
    else if a[0] != b[0] then a[0] < b[0]
    else StrLe(a[1..], b[1..])
  }

  predicate StrLt(a: string, b: string) {
    StrLe(a, b) && a != b
  }

  lemma {:induction false} StrLeRefl(a: string)
    ensures StrLe(a, a)
  {
    if a != [] {
      StrLeRefl(a[1..]);
    }
  }

  lemma {:induction false} StrLeTotal(a: string, b: string)
    ensures StrLe(a, b) || StrLe(b, a)
  {
    if a != [] && b != [] && a[0] == b[0] {
      StrLeTotal(a[1..], b[1..]);
    }
  }

  lemma {:induction false} StrLeAntisym(a: string, b: string)
    requires StrLe(a, b) && StrLe(b, a)
    ensures a == b
  {
    if a != [] && b != [] {
      StrLeAntisym(a[1..], b[1..]);
      assert a == [a[0]] + a[1..] && b == [b[0]] + b[1..];
    }
  }

  lemma {:induction false} StrLeTrans(a: string, b: string, c: string)
    requires StrLe(a, b) && StrLe(b, c)
    ensures StrLe(a, c)
  {
    if a != [] && b != [] && c != [] && a[0] == b[0] && b[0] == c[0] {
      StrLeTrans(a[1..], b[1..], c[1..]);
    }
  }

  lemma StrLtTrans(a: string, b: string, c: string)
    requires StrLt(a, b) && StrLt(b, c)
    ensures StrLt(a, c)
  {
    StrLeTrans(a, b, c);
    if a == c {
      StrLeAntisym(a, b);
    }
  }

  /** Equal-length prefixes decide the order before any suffix is looked at. */
  lemma {:induction false} StrLtAppend(a: string, b: string, x: string, y: string)
    requires |a| == |b| && StrLt(a, b)
    ensures StrLt(a + x, b + y)
  {
    if a[0] == b[0] {
      assert a[1..] != b[1..] by {
        assert a == [a[0]] + a[1..] && b == [b[0]] + b[1..];
      }
      StrLtAppend(a[1..], b[1..], x, y);
      assert (a + x)[1..] == a[1..] + x && (b + y)[1..] == b[1..] + y;
    }
  }

  /** With equal prefixes the suffixes decide. */
  lemma {:induction false} StrLePrefix(p: string, x: string, y: string)
    ensures StrLe(p + x, p + y) == StrLe(x, y)
  {
    if p != [] {
      assert (p + x)[1..] == p[1..] + x && (p + y)[1..] == p[1..] + y;
      StrLePrefix(p[1..], x, y);
    } else {
      assert p + x == x && p + y == y;
    }
  }

  function MinStr(a: string, b: string): (r: string)
    ensures StrLe(r, a) && StrLe(r, b) && (r == a || r == b)
  {
    StrLeTotal(a, b);
    StrLeRefl(a);
    StrLeRefl(b);
    if StrLe(a, b) then a else b
  }

  function MaxStr(a: string, b: string): (r: string)
    ensures StrLe(a, r) && StrLe(b, r) && (r == a || r == b)
  {
    StrLeTotal(a, b);
    StrLeRefl(a);
    StrLeRefl(b);
    if StrLe(a, b) then b else a
  }

  /** Substring test (Python `sub in s`). */
  predicate Contains(s: string, sub: string) {
    |sub| <= |s| && (s[..|sub|] == sub || Contains(s[1..], sub))
  }

  function Pow2(n: nat): (r: nat)
    ensures r >= 1
  {
    if n == 0 then 1 else 2 * Pow2(n - 1)
  }

  function Sum(s: seq<int>): int {
    if s == [] then 0 else s[0] + Sum(s[1..])
  }

  lemma {:induction false} SumAppend(a: seq<int>, b: seq<int>)
    ensures Sum(a + b) == Sum(a) + Sum(b)
  {
    if a == [] {
      assert a + b == b;
    } else {
      assert (a + b)[1..] == a[1..] + b;
      SumAppend(a[1..], b);
    }
  }

  /** Concatenation of a sequence of sequences (pandas `concat` on frames). */
  function Concat<T(!new)>(fs: seq<seq<T>>): (r: seq<T>)
    ensures forall x :: x in r <==> exists i :: 0 <= i < |fs| && x in fs[i]
  {
    if fs == [] then []
    else
      var rest := Concat(fs[1..]);
      assert forall i :: 1 <= i < |fs| ==> fs[i] == fs[1..][i - 1];
      fs[0] + rest
  }

  lemma {:induction false} ConcatAppend<T(!new)>(fs: seq<seq<T>>, g: seq<T>)
    ensures Concat(fs + [g]) == Concat(fs) + g
  {
    if fs == [] {
      assert Concat([g]) == g + Concat([]);
    } else {
      assert (fs + [g])[1..] == fs[1..] + [g];
      ConcatAppend(fs[1..], g);
    }
  }

  // ---------------------------------------------------------------------------
  // Sorting strings (Python `sorted`, SQL `ORDER BY` on VARCHAR)
  // ---------------------------------------------------------------------------

  /** Each string strictly below every later one. */
  predicate StrictlyAscending(s: seq<string>) {
    forall i, j :: 0 <= i < j < |s| ==> StrLt(s[i], s[j])
  }

  predicate SortedStrs(s: seq<string>) {
    forall i, j :: 0 <= i < j < |s| ==> StrLe(s[i], s[j])
  }

  function InsertStr(x: string, s: seq<string>): (r: seq<string>)
    requires SortedStrs(s)
    ensures SortedStrs(r) && multiset(r) == multiset(s) + multiset{x}
  {
    if s == [] then [x]
    else if StrLe(x, s[0]) then
      forall j | 0 < j < |s| ensures StrLe(x, s[j]) {
        StrLeTrans(x, s[0], s[j]);
      }
      assert SortedStrs([x] + s);
      [x] + s
    else
      assert s == [s[0]] + s[1..];
      var rest := InsertStr(x, s[1..]);
      StrLeTotal(x, s[0]);
      forall y | y in rest ensures StrLe(s[0], y) {
        assert y in multiset(rest);
        if y != x {
          assert y in s[1..];
        }
      }
      assert SortedStrs([s[0]] + rest);
      [s[0]] + rest
  }

  /** Adjacent slices join into one. */
  lemma SliceJoin<T>(s: seq<T>, i: nat, j: nat, k: nat)
    requires i <= j <= k <= |s|
    ensures s[i..j] + s[j..k] == s[i..k]
  {
    assert forall x :: 0 <= x < k - i ==> (s[i..j] + s[j..k])[x] == s[i..k][x];
  }

  /** Filtering keeps an ascending list ascending. */
  lemma {:induction false} FilterSorted(s: seq<string>, p: string -> bool)
    ensures SortedStrs(s) ==> SortedStrs(Filter(s, p))
  {
    if s != [] && SortedStrs(s) {
      FilterSorted(s[1..], p);
      var rest := Filter(s[1..], p);
      if p(s[0]) {
        forall y | y in rest ensures StrLe(s[0], y) {
          var k :| 0 <= k < |s[1..]| && s[1..][k] == y;
          assert s[k + 1] == y;
        }
        assert SortedStrs([s[0]] + rest);
      }
    }
  }

  function Reverse<T>(s: seq<T>): (r: seq<T>)
    ensures |r| == |s| && forall i :: 0 <= i < |s| ==> r[i] == s[|s| - 1 - i]
  {
    if s == [] then [] else Reverse(s[1..]) + [s[0]]
  }

  /** Each string at or above every later one. */
  predicate SortedDesc(s: seq<string>) {
    forall i, j :: 0 <= i < j < |s| ==> StrLe(s[j], s[i])
  }

  /**
   * `sorted(s, reverse=True)` of an ascending list: the list reversed is in
   * descending order and holds the same strings.
   */
  lemma {:induction false} ReverseDescending(s: seq<string>)
    requires SortedStrs(s)
    ensures SortedDesc(Reverse(s)) && multiset(Reverse(s)) == multiset(s)
    decreases |s|
  {
    if s != [] {
      ReverseDescending(s[1..]);
      assert s == [s[0]] + s[1..];
    }
  }

  /** There is one descending order of a multiset of strings, so the reversal is the sort. */
  lemma {:induction false} DescUnique(a: seq<string>, b: seq<string>)
    requires SortedDesc(a) && SortedDesc(b) && multiset(a) == multiset(b)
    ensures a == b
    decreases |a|
  {
    if a == [] {
      assert |multiset(b)| == 0;
    } else {
      DescHead(a, b);
      MultisetTail(a, b);
      DescTail(a);
      DescTail(b);
      DescUnique(a[1..], b[1..]);
      assert a == [a[0]] + a[1..] && b == [b[0]] + b[1..];
    }
  }

  /** Two descending lists of the same strings start with the same, greatest, one. */
  lemma DescHead(a: seq<string>, b: seq<string>)
    requires SortedDesc(a) && SortedDesc(b) && multiset(a) == multiset(b) && a != []
    ensures b != [] && a[0] == b[0]
  {
    assert a[0] in multiset(b);
    assert b != [] && b[0] in multiset(a);
    var j :| 0 <= j < |b| && b[j] == a[0];
    var k :| 0 <= k < |a| && a[k] == b[0];
    if j == 0 { StrLeRefl(a[0]); }
    if k == 0 { StrLeRefl(b[0]); }
    StrLeAntisym(a[0], b[0]);
  }

  lemma MultisetTail(a: seq<string>, b: seq<string>)
    requires a != [] && b != [] && a[0] == b[0] && multiset(a) == multiset(b)
    ensures multiset(a[1..]) == multiset(b[1..])
  {
    assert a == [a[0]] + a[1..] && b == [b[0]] + b[1..];
    assert multiset(a) == multiset{a[0]} + multiset(a[1..]);
    assert multiset(b) == multiset{b[0]} + multiset(b[1..]);
    assert multiset(a[1..]) == multiset(a) - multiset{a[0]};
    assert multiset(b[1..]) == multiset(b) - multiset{b[0]};
  }

  lemma DescTail(a: seq<string>)
    requires SortedDesc(a) && a != []
    ensures SortedDesc(a[1..])
  {
  }

  /** Reversal keeps the members. */
  lemma ReverseMembers(s: seq<string>, v: string)
    ensures v in Reverse(s) <==> v in s
  {
    if v in s {
      var k :| 0 <= k < |s| && s[k] == v;
      assert Reverse(s)[|s| - 1 - k] == v;
    }
  }

  /** `sorted(s)`: ascending, with the same elements and multiplicities. */
  function Sort(s: seq<string>): (r: seq<string>)
    ensures SortedStrs(r) && multiset(r) == multiset(s)
  {
    if s == [] then []
    else
      assert s == [s[0]] + s[1..];
      InsertStr(s[0], Sort(s[1..]))
  }

  /** Every non-empty set of strings has a least element. */
  lemma {:induction false} MinExists(s: set<string>)
    requires s != {}
    ensures exists m :: m in s && IsLeast(m, s)
    decreases |s|
  {
    var x :| x in s;
    if s - {x} == {} {
      LeastOfOne(x, s);
    } else {
      MinExists(s - {x});
      var m :| m in s - {x} && IsLeast(m, s - {x});
      LeastOfTwo(x, m, s);
    }
  }

  predicate IsLeast(m: string, s: set<string>) {
    forall y :: y in s ==> StrLe(m, y)
  }

  lemma LeastOfOne(x: string, s: set<string>)
    requires x in s && s - {x} == {}
    ensures IsLeast(x, s)
  {
    forall y | y in s ensures StrLe(x, y) {
      assert y !in s - {x};
      StrLeRefl(x);
    }
  }

  lemma LeastOfTwo(x: string, m: string, s: set<string>)
    requires x in s && m in s && IsLeast(m, s - {x})
    ensures MinStr(x, m) in s && IsLeast(MinStr(x, m), s)
  {
    var least := MinStr(x, m);
    forall y | y in s ensures StrLe(least, y) {
      if y != x {
        StrLeTrans(least, m, y);
      }
    }
  }

  /** `sorted(s)` of a set: every element exactly once, ascending. */
  method SortSet(s: set<string>) returns (r: seq<string>)
    ensures StrictlyAscending(r) && forall x :: x in r <==> x in s
  {
    r := [];
    var rest := s;
    while rest != {}
      invariant rest <= s
      invariant forall x :: x in r <==> x in s && x !in rest
      invariant StrictlyAscending(r)
      invariant forall i, y :: 0 <= i < |r| && y in rest ==> StrLt(r[i], y)
      decreases rest
    {
      MinExists(rest);
      var m :| m in rest && IsLeast(m, rest);
      r := r + [m];
      rest := rest - {m};
    }
  }

  /** The rows a `LIMIT n` keeps when `n > 0` (no limit otherwise). */
  function Limit<T>(rows: seq<T>, n: int): (r: seq<T>)
    ensures n > 0 ==> |r| == if n < |rows| then n else |rows|
    ensures n <= 0 ==> r == rows
    ensures r <= rows
  {
    if n > 0 && n < |rows| then rows[..n] else rows
  }

  /** The present values of a sequence of options, in order. */
  function Somes<T>(vs: seq<Option<T>>): seq<T> {
    if vs == [] then []
    else Somes(vs[..|vs| - 1]) + if vs[|vs| - 1].Some? then [vs[|vs| - 1].value] else []
  }

  /** The number of absent entries. */
  function CountNone<T>(vs: seq<Option<T>>): nat {
    if vs == [] then 0
    else CountNone(vs[..|vs| - 1]) + if vs[|vs| - 1].None? then 1 else 0
  }

  /** Every entry is either counted absent or kept, never both. */
  lemma {:induction false} SomesCount<T>(vs: seq<Option<T>>)
    ensures CountNone(vs) + |Somes(vs)| == |vs|
  {
    if vs != [] {
      SomesCount(vs[..|vs| - 1]);
    }
  }

  /** A value is kept exactly when some entry holds it. */
  lemma {:induction false} SomesExact<T>(vs: seq<Option<T>>, x: T)
    ensures x in Somes(vs) <==> exists i :: 0 <= i < |vs| && vs[i] == Some(x)
  {
    if vs != [] {
      var init := vs[..|vs| - 1];
      SomesExact(init, x);
      if x in Somes(init) {
        var i :| 0 <= i < |init| && init[i] == Some(x);
        assert vs[i] == init[i];
      }
      if i :| 0 <= i < |vs| && vs[i] == Some(x) {
        if i < |init| {
          assert init[i] == vs[i];
        }
      }
    }
  }

  lemma SomesSnoc<T>(vs: seq<Option<T>>, i: nat)
    requires i < |vs|
    ensures Somes(vs[..i + 1]) == Somes(vs[..i]) + if vs[i].Some? then [vs[i].value] else []
    ensures CountNone(vs[..i + 1]) == CountNone(vs[..i]) + if vs[i].None? then 1 else 0
  {
    assert vs[..i + 1][..i] == vs[..i];
  }
}

