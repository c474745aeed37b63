/**
 * `find_ghost_codes` of scripts/find_ghost_codes.py: the stock codes that
 * appear in one of the quote tables but not in `stock_basic`, each with the
 * tables it was seen in.
 *
 * The database reads are inputs: `basic` is the distinct `ts_code` set of
 * `stock_basic`, and `scans[i]` is the distinct `ts_code` set of `Tables[i]`,
 * or `None` when that query raised (the script reports it and goes on).
 */
module GhostCodes {
  import opened Common

  /** The tables scanned, in scan order. */
  const Tables: seq<string> := ["daily", "daily_basic", "bak_daily", "bak_basic"]

  /** `ghost_map` after the codes `gs` of table `t` have been recorded. */
  function Add(m: map<Value, seq<string>>, gs: set<Value>, t: string): (r: map<Value, seq<string>>)
    ensures r.Keys == m.Keys + gs
  {
    map g | g in m.Keys + gs :: (if g in m then m[g] else []) + (if g in gs then [t] else [])
  }

  /** `ghost_map` after the first `n` tables have been scanned. */
  function GhostMap(basic: set<Value>, scans: seq<Option<set<Value>>>, n: nat): map<Value, seq<string>>
    requires |scans| == |Tables| && n <= |Tables|
  {
    if n == 0 then map[]
    else
      var m := GhostMap(basic, scans, n - 1);
      match scans[n - 1]
      case None => m
      case Some(codes) => Add(m, codes - basic, Tables[n - 1])
  }

  /** The `for g in ghosts` loop: append table `t` to the entry of every code in `gs`. */
  method Record(m: map<Value, seq<string>>, gs: set<Value>, t: string) returns (r: map<Value, seq<string>>)
    ensures r == Add(m, gs, t)
  {
    r := m;
    var rest := gs;
    AddNothing(m, t);
    while rest != {}
      invariant rest <= gs
      invariant r == Add(m, gs - rest, t)
    {
      var g :| g in rest;
      var sources := if g in r then r[g] else [];
      RecordStep(m, gs, rest, g, t, r);
      r := r[g := sources + [t]];
      rest := rest - {g};
    }
    assert gs - rest == gs;
  }

  lemma RecordStep(m: map<Value, seq<string>>, gs: set<Value>, rest: set<Value>, g: Value, t: string,
                   r: map<Value, seq<string>>)
    requires g in rest && rest <= gs && r == Add(m, gs - rest, t)
    ensures r[g := (if g in r then r[g] else []) + [t]] == Add(m, gs - (rest - {g}), t)
  {
    AddOne(m, gs - rest, g, t);
    assert gs - (rest - {g}) == (gs - rest) + {g};
  }

  /** Recording one more code `g` of table `t`. */
  lemma AddOne(m: map<Value, seq<string>>, done: set<Value>, g: Value, t: string)
    requires g !in done
    ensures Add(m, done + {g}, t) == Add(m, done, t)[g := (if g in Add(m, done, t) then Add(m, done, t)[g] else []) + [t]]
  {
    var a, b := Add(m, done, t), Add(m, done + {g}, t);
    forall h | h in b
      ensures b[h] == a[g := (if g in a then a[g] else []) + [t]][h]
    {
      if h == g {
        assert (if g in m then m[g] else []) + [] == (if g in m then m[g] else []);
      }
    }
  }

  lemma AddNothing(m: map<Value, seq<string>>, t: string)
    ensures Add(m, {}, t) == m
  {
    forall g | g in m
      ensures Add(m, {}, t)[g] == m[g]
    {
      assert m[g] + [] == m[g];
    }
  }

  /** The ghost map and whether the CSV report is written. */
  method FindGhostCodes(basic: set<Value>, scans: seq<Option<set<Value>>>)
    returns (ghosts: map<Value, seq<string>>, saved: bool)
    requires |scans| == |Tables|
    ensures ghosts == GhostMap(basic, scans, |Tables|)
    ensures saved <==> |ghosts| > 0
  {
    ghosts := map[];
    var i := 0;
    while i < |Tables|
      invariant 0 <= i <= |Tables|
      invariant ghosts == GhostMap(basic, scans, i)
    {
      if scans[i].Some? {
        ghosts := Record(ghosts, scans[i].value - basic, Tables[i]);
      }
      i := i + 1;
    }
    saved := |ghosts| > 0;
  }

  /** A code is a ghost iff some successful scan saw it and `stock_basic` lacks it. */
  lemma {:induction false} GhostIff(basic: set<Value>, scans: seq<Option<set<Value>>>, n: nat, g: Value)
    requires |scans| == |Tables| && n <= |Tables|
    ensures g in GhostMap(basic, scans, n)
        <==> g !in basic && exists i :: 0 <= i < n && scans[i].Some? && g in scans[i].value
  {
    if n > 0 {
      GhostIff(basic, scans, n - 1, g);
    }
  }

  /** Did scan `i` see `g` as a ghost? */
  predicate SeenAt(basic: set<Value>, scans: seq<Option<set<Value>>>, i: nat, g: Value)
    requires |scans| == |Tables| && i < |Tables|
  {
    scans[i].Some? && g in scans[i].value - basic
  }

  /** The tables among the first `n` whose scan saw `g` as a ghost, in scan order. */
  function Sources(basic: set<Value>, scans: seq<Option<set<Value>>>, n: nat, g: Value): seq<string>
    requires |scans| == |Tables| && n <= |Tables|
  {
    if n == 0 then []
    else Sources(basic, scans, n - 1, g) + if SeenAt(basic, scans, n - 1, g) then [Tables[n - 1]] else []
  }

  /** The entry after `n` scans: the entry after `n - 1`, plus table `n - 1` if it saw the ghost. */
  lemma GhostMapStep(basic: set<Value>, scans: seq<Option<set<Value>>>, n: nat, g: Value)
    requires |scans| == |Tables| && 0 < n <= |Tables|
    requires g in GhostMap(basic, scans, n)
    ensures GhostMap(basic, scans, n)[g]
         == (if g in GhostMap(basic, scans, n - 1) then GhostMap(basic, scans, n - 1)[g] else [])
            + (if SeenAt(basic, scans, n - 1, g) then [Tables[n - 1]] else [])
  {
  }

  /** A ghost's entry in the map is its list of sources. */
  lemma {:induction false} GhostMapSources(basic: set<Value>, scans: seq<Option<set<Value>>>, n: nat, g: Value)
    requires |scans| == |Tables| && n <= |Tables|
    requires g in GhostMap(basic, scans, n)
    ensures GhostMap(basic, scans, n)[g] == Sources(basic, scans, n, g)
  {
    GhostMapStep(basic, scans, n, g);
    if g in GhostMap(basic, scans, n - 1) {
      GhostMapSources(basic, scans, n - 1, g);
    } else {
      NoSources(basic, scans, n - 1, g);
    }
  }

  lemma {:induction false} NoSources(basic: set<Value>, scans: seq<Option<set<Value>>>, n: nat, g: Value)
    requires |scans| == |Tables| && n <= |Tables|
    requires g !in GhostMap(basic, scans, n)
    ensures Sources(basic, scans, n, g) == []
  {
    if n > 0 {
      NoSources(basic, scans, n - 1, g);
    }
  }

  /**
   * The source list names exactly the scans that saw the code, in scan order:
   * its `k`-th entry is `Tables[ix[k]]` for strictly increasing scan indexes `ix`.
   */
  lemma {:induction false} SourcesInScanOrder(basic: set<Value>, scans: seq<Option<set<Value>>>, n: nat, g: Value)
      returns (ix: seq<nat>)
    requires |scans| == |Tables| && n <= |Tables|
    ensures |ix| == |Sources(basic, scans, n, g)|
    ensures forall k :: 0 <= k < |ix| ==> ix[k] < n && Sources(basic, scans, n, g)[k] == Tables[ix[k]]
    ensures forall k, l :: 0 <= k < l < |ix| ==> ix[k] < ix[l]
    ensures forall i :: 0 <= i < n && SeenAt(basic, scans, i, g) <==> i in ix
  {
    if n == 0 {
      ix := [];
    } else {
      var before := SourcesInScanOrder(basic, scans, n - 1, g);
      ix := before + if SeenAt(basic, scans, n - 1, g) then [n - 1] else [];
    }
  }

  /** Each table appears at most once in a ghost's source list. */
  lemma SourcesDistinct(basic: set<Value>, scans: seq<Option<set<Value>>>, g: Value)
    requires |scans| == |Tables|
    requires g in GhostMap(basic, scans, |Tables|)
    ensures forall k, l :: 0 <= k < l < |GhostMap(basic, scans, |Tables|)[g]|
              ==> GhostMap(basic, scans, |Tables|)[g][k] != GhostMap(basic, scans, |Tables|)[g][l]
  {
    GhostMapSources(basic, scans, |Tables|, g);
    var ix := SourcesInScanOrder(basic, scans, |Tables|, g);
  }
}
