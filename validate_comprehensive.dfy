/**
 * The scan side of `DataValidator` in scripts/validate_comprehensive.py: the
 * stock universe (`_get_universe`, `_is_valid_date`), the per-day gap matrix
 * (`scan_gaps`, `_process_batch`) and the folding of gap dates into ranges
 * (`_dates_to_ranges`).
 *
 * The database reads are inputs: the `stock_basic` and `bak_basic` rows in
 * query order, the codes that have any `daily` or `bak_daily` row, and the
 * `(ts_code, trade_date)` pairs of the five tables the batch analysis reads.
 * The trade calendar is the sequence in which Python happens to iterate the
 * set of open days, and "yesterday" (`CHECK_END`) is a parameter.
 */
module ValidateComprehensive {
  import opened Common
  import Remote
  import Calendar

  // ---------------------------------------------------------------------------
  // The stock universe (lines 62-117)
  // ---------------------------------------------------------------------------

  /** `_is_valid_date`: a non-empty value of exactly eight characters. */
  function IsValidDate(v: Value): (ok: bool)
    ensures ok <==> v.Some? && |v.value| == 8
  {
    if !Truthy(v) then false
    else if |v.value| != 8 then false
    else v.value != "0"
  }

  /** A date from `stock_basic`, or None when `_is_valid_date` rejects it. */
  function ValidOrNone(v: Value): (r: Value)
    ensures r.Some? <==> IsValidDate(v)
    ensures r.Some? ==> r == v
  {
    if IsValidDate(v) then v else None
  }

  datatype Listing = Listing(list: Value, delist: Value)
  datatype BasicRow = BasicRow(code: string, list: Value, delist: Value)
  datatype BakRow = BakRow(code: string, list: Value)

  /** The dict `universe`: its entries and the order in which codes were first inserted. */
  datatype Universe = Universe(order: seq<string>, entries: map<string, Listing>)

  predicate Distinct(s: seq<string>) {
    forall i, j :: 0 <= i < j < |s| ==> s[i] != s[j]
  }

  /** The order lists every key of the dict once. */
  ghost predicate Wf(u: Universe) {
    (forall c :: c in u.order ==> c in u.entries) && (forall c :: c in u.entries ==> c in u.order) && Distinct(u.order)
  }

  /** `universe[code] = l`: a new code goes to the end of the order, a known one keeps its place. */
  function Put(u: Universe, code: string, l: Listing): Universe {
    Universe(if code in u.entries then u.order else u.order + [code], u.entries[code := l])
  }

  lemma PutWf(u: Universe, code: string, l: Listing)
    requires Wf(u)
    ensures Wf(Put(u, code, l))
  {
  }

  /** The dict after the `stock_basic` loop over `rows`, each row's dates validated. */
  function FromBasic(rows: seq<BasicRow>): Universe {
    if rows == [] then Universe([], map[])
    else
      var r := rows[|rows| - 1];
      Put(FromBasic(rows[..|rows| - 1]), r.code, Listing(ValidOrNone(r.list), ValidOrNone(r.delist)))
  }

  /** The `WHERE` clause of the `bak_basic` query: a list date of eight characters after 19900101. */
  predicate BakListed(r: BakRow) {
    r.list.Some? && |r.list.value| == 8 && StrLt("19900101", r.list.value)
  }

  /**
   * One `bak_basic` row: a code not yet known is added (without delist date)
   * only when it has quote data; a known code without a list date takes this one.
   */
  function BakStep(u: Universe, r: BakRow, known: set<string>): Universe {
    if r.code !in u.entries then
      if r.code in known then Put(u, r.code, Listing(r.list, None)) else u
    else if !Truthy(u.entries[r.code].list) && IsValidDate(r.list) then
      Put(u, r.code, u.entries[r.code].(list := r.list))
    else u
  }

  function FromBak(u: Universe, rows: seq<BakRow>, known: set<string>): Universe {
    if rows == [] then u
    else BakStep(FromBak(u, rows[..|rows| - 1], known), rows[|rows| - 1], known)
  }

  /** `uni_list`: the entries with a list date, in insertion order. */
  function Listed(u: Universe): (r: seq<(string, Listing)>)
    requires forall c :: c in u.order ==> c in u.entries
    decreases |u.order|
  {
    if u.order == [] then []
    else
      var c := u.order[|u.order| - 1];
      Listed(Universe(u.order[..|u.order| - 1], u.entries))
        + if Truthy(u.entries[c].list) then [(c, u.entries[c])] else []
  }

  function UniverseOf(basic: seq<BasicRow>, bak: seq<BakRow>, known: set<string>): seq<(string, Listing)> {
    FromBasicWf(basic);
    FromBakWf(FromBasic(basic), Filter(bak, BakListed), known);
    Listed(FromBak(FromBasic(basic), Filter(bak, BakListed), known))
  }

  lemma {:induction false} FromBasicWf(rows: seq<BasicRow>)
    ensures Wf(FromBasic(rows))
  {
    if rows != [] {
      FromBasicWf(rows[..|rows| - 1]);
    }
  }

  lemma {:induction false} FromBakWf(u: Universe, rows: seq<BakRow>, known: set<string>)
    requires Wf(u)
    ensures Wf(FromBak(u, rows, known))
  {
    if rows != [] {
      FromBakWf(u, rows[..|rows| - 1], known);
    }
  }

  function Codes(uni: seq<(string, Listing)>): (cs: seq<string>)
    ensures |cs| == |uni| && forall i :: 0 <= i < |uni| ==> cs[i] == uni[i].0
  {
    seq(|uni|, i requires 0 <= i < |uni| => uni[i].0)
  }

  /** The list date of the last `stock_basic` row of `code` (the one the dict keeps). */
  function LastList(rows: seq<BasicRow>, code: string): Value {
    if rows == [] then None
    else if rows[|rows| - 1].code == code then rows[|rows| - 1].list
    else LastList(rows[..|rows| - 1], code)
  }

  predicate InBasic(rows: seq<BasicRow>, code: string) {
    exists r :: r in rows && r.code == code
  }

  predicate InBak(rows: seq<BakRow>, code: string) {
    exists r :: r in rows && BakListed(r) && r.code == code
  }

  /**
   * A code is in the universe exactly when `stock_basic` has it with a valid
   * list date, or has it without one and `bak_basic` supplies one, or only
   * `bak_basic` has it and the code has quote data.
   */
  lemma UniverseMembers(basic: seq<BasicRow>, bak: seq<BakRow>, known: set<string>, code: string)
    ensures code in Codes(UniverseOf(basic, bak, known))
        <==> (InBasic(basic, code) && (IsValidDate(LastList(basic, code)) || InBak(bak, code)))
             || (!InBasic(basic, code) && code in known && InBak(bak, code))
  {
    var u := FromBasic(basic);
    FromBasicWf(basic);
    FromBasicEntries(basic, code);
    var bs := Filter(bak, BakListed);
    FromBakWf(u, bs, known);
    FromBakEntries(u, bs, known, code);
    ListedMembers(FromBak(u, bs, known), code);
    assert InBak(bak, code) <==> exists r :: r in bs && r.code == code;
  }

  /** The `stock_basic` loop keeps, per code, the validated dates of its last row. */
  lemma {:induction false} FromBasicEntries(rows: seq<BasicRow>, code: string)
    ensures code in FromBasic(rows).entries <==> InBasic(rows, code)
    ensures code in FromBasic(rows).entries ==> FromBasic(rows).entries[code].list == ValidOrNone(LastList(rows, code))
  {
    if rows != [] {
      var init := rows[..|rows| - 1];
      FromBasicEntries(init, code);
      assert forall r :: r in rows <==> r in init || r == rows[|rows| - 1];
    }
  }

  /** What the `bak_basic` loop leaves for `code`: present, and with a list date or not. */
  predicate BakOutcome(u: Universe, rows: seq<BakRow>, known: set<string>, code: string) {
    var v := FromBak(u, rows, known);
    var seen := exists r :: r in rows && r.code == code;
    && (code in v.entries <==> code in u.entries || (code in known && seen))
    && (code in v.entries ==>
          (Truthy(v.entries[code].list) <==> (code in u.entries && (Truthy(u.entries[code].list) || seen)) || code !in u.entries))
  }

  lemma {:induction false} FromBakEntries(u: Universe, rows: seq<BakRow>, known: set<string>, code: string)
    requires forall r :: r in rows ==> BakListed(r)
    ensures BakOutcome(u, rows, known, code)
  {
    if rows != [] {
      var init := rows[..|rows| - 1];
      assert forall r :: r in init ==> r in rows;
      FromBakEntries(u, init, known, code);
      BakStepEntries(u, init, rows, known, code);
    }
  }

  lemma BakStepEntries(u: Universe, init: seq<BakRow>, rows: seq<BakRow>, known: set<string>, code: string)
    requires rows != [] && init == rows[..|rows| - 1]
    requires forall r :: r in rows ==> BakListed(r)
    requires BakOutcome(u, init, known, code)
    ensures BakOutcome(u, rows, known, code)
  {
    assert forall r :: r in rows <==> r in init || r == rows[|rows| - 1];
    assert BakListed(rows[|rows| - 1]);
  }

  /** `uni_list` holds exactly the codes whose entry has a list date. */
  lemma {:induction false} ListedMembers(u: Universe, code: string)
    requires forall c :: c in u.order ==> c in u.entries
    ensures code in Codes(Listed(u)) <==> code in u.order && Truthy(u.entries[code].list)
    decreases |u.order|
  {
    if u.order != [] {
      var init := Universe(u.order[..|u.order| - 1], u.entries);
      ListedMembers(init, code);
      var c := u.order[|u.order| - 1];
      assert u.order == init.order + [c];
      var tail: seq<(string, Listing)> := if Truthy(u.entries[c].list) then [(c, u.entries[c])] else [];
      assert Listed(u) == Listed(init) + tail;
      CodesAppend(Listed(init), tail);
      assert Codes(tail) == if Truthy(u.entries[c].list) then [c] else [];
    }
  }

  lemma CodesAppend(a: seq<(string, Listing)>, b: seq<(string, Listing)>)
    ensures Codes(a + b) == Codes(a) + Codes(b)
  {
  }

  /** Every code of the universe is listed once, and each has a list date. */
  lemma {:induction false} ListedDistinct(u: Universe)
    requires (forall c :: c in u.order ==> c in u.entries) && Distinct(u.order)
    ensures Distinct(Codes(Listed(u)))
    ensures forall i :: 0 <= i < |Listed(u)| ==> Truthy(Listed(u)[i].1.list)
    decreases |u.order|
  {
    if u.order != [] {
      var init := Universe(u.order[..|u.order| - 1], u.entries);
      var c := u.order[|u.order| - 1];
      ListedDistinct(init);
      ListedMembers(init, c);
      var tail: seq<(string, Listing)> := if Truthy(u.entries[c].list) then [(c, u.entries[c])] else [];
      CodesAppend(Listed(init), tail);
    }
  }

  // ---------------------------------------------------------------------------
  // The gap matrix (lines 119-252)
  // ---------------------------------------------------------------------------

  datatype GapType = TotalGap | MissingDailyOnly | MissingAdjOnly | PartialGap

  /** One entry of `gaps_details`. */
  datatype Gap = Gap(code: string, date: string, daily: bool, adj: bool, basic: bool, bak: bool,
                     kind: GapType, recoverable: bool)

  /** The `(ts_code, trade_date)` pairs of the tables read by the batch analysis. */
  datatype Stored = Stored(daily: set<(string, string)>, adj: set<(string, string)>, basic: set<(string, string)>,
                           bak: set<(string, string)>, susp: set<(string, string)>)

  /** `issue_types`, in the order the checks append them. */
  function IssueTypes(hasDaily: bool, hasAdj: bool, hasBasic: bool): seq<string> {
    (if !hasDaily then ["missing_daily"] else [])
      + (if !hasAdj then ["missing_adj"] else [])
      + (if !hasBasic then ["missing_basic"] else [])
  }

  /** `main_type`, from the issue list. */
  function Classify(types: seq<string>): GapType {
    if "missing_daily" in types && "missing_adj" in types && "missing_basic" in types then TotalGap
    else if "missing_daily" in types then MissingDailyOnly
    else if "missing_adj" in types then MissingAdjOnly
    else PartialGap
  }

  /**
   * The verdict on one expected day of one code: a suspended day is never a
   * gap; otherwise any missing table makes it one, classified in priority
   * order, and it is recoverable exactly when it is a total gap with a
   * `bak_daily` row.
   */
  function DayGap(code: string, d: string, st: Stored): (g: Option<Gap>)
    ensures g.None? <==> (code, d) in st.susp || ((code, d) in st.daily && (code, d) in st.adj && (code, d) in st.basic)
    ensures g.Some? ==> && g.value.code == code && g.value.date == d
                        && g.value.daily == ((code, d) in st.daily) && g.value.adj == ((code, d) in st.adj)
                        && g.value.basic == ((code, d) in st.basic) && g.value.bak == ((code, d) in st.bak)
    ensures g.Some? ==> (g.value.kind == TotalGap <==> !g.value.daily && !g.value.adj && !g.value.basic)
    ensures g.Some? ==> (g.value.kind == MissingDailyOnly <==> !g.value.daily && (g.value.adj || g.value.basic))
    ensures g.Some? ==> (g.value.kind == MissingAdjOnly <==> g.value.daily && !g.value.adj)
    ensures g.Some? ==> (g.value.kind == PartialGap <==> g.value.daily && g.value.adj && !g.value.basic)
    ensures g.Some? ==> (g.value.recoverable <==> g.value.kind == TotalGap && g.value.bak)
  {
    if (code, d) in st.susp then None
    else
      var hd, ha, hb := (code, d) in st.daily, (code, d) in st.adj, (code, d) in st.basic;
      var types := IssueTypes(hd, ha, hb);
      if types == [] then None
      else
        var kind := Classify(types);
        Some(Gap(code, d, hd, ha, hb, (code, d) in st.bak, kind, kind == TotalGap && (code, d) in st.bak))
  }

  /** `end_date`: the delist date when it is earlier than yesterday. */
  function EndDate(delist: Value, checkEnd: string): (e: string)
    ensures StrLe(e, checkEnd)
    ensures Truthy(delist) ==> StrLe(e, delist.value)
    ensures e == checkEnd || (Truthy(delist) && e == delist.value)
  {
    StrLeRefl(checkEnd);
    if Truthy(delist) then MinStr(delist.value, checkEnd) else checkEnd
  }

  /** `expected`: the trade days from the list date to the end date. */
  function Expected(days: seq<string>, list: string, end: string): (ds: seq<string>)
    ensures forall d :: d in ds <==> d in days && StrLe(list, d) && StrLe(d, end)
  {
    Filter(days, d => StrLe(list, d) && StrLe(d, end))
  }

  /** The gaps of one code over the days `ds`, in their order. */
  function DayGaps(code: string, ds: seq<string>, st: Stored): seq<Gap> {
    if ds == [] then [] else DayGaps(code, ds[..|ds| - 1], st) + DayGapList(code, ds[|ds| - 1], st)
  }

  /** The gap of one day, as a list of zero or one entries. */
  function DayGapList(code: string, d: string, st: Stored): seq<Gap> {
    var g := DayGap(code, d, st);
    if g.Some? then [g.value] else []
  }

  /** The gaps of one universe entry (none when it has no list date). */
  function ItemGaps(item: (string, Listing), days: seq<string>, checkEnd: string, st: Stored): seq<Gap> {
    if !Truthy(item.1.list) then []
    else DayGaps(item.0, Expected(days, item.1.list.value, EndDate(item.1.delist, checkEnd)), st)
  }

  /** The gaps of a run of universe entries, in order. */
  function BatchGaps(batch: seq<(string, Listing)>, days: seq<string>, checkEnd: string, st: Stored): seq<Gap> {
    if batch == [] then []
    else BatchGaps(batch[..|batch| - 1], days, checkEnd, st) + ItemGaps(batch[|batch| - 1], days, checkEnd, st)
  }

  /** `self.report`: the universe size, the gap count and the gap details. */
  class Validator {
    var universeCount: nat
    var gapsFound: nat
    var gaps: seq<Gap>

    /** `gaps_found` counts the details. */
    predicate Valid()
      reads this
    {
      gapsFound == |gaps|
    }

    constructor ()
      ensures Valid() && universeCount == 0 && gaps == []
    {
      universeCount, gapsFound, gaps := 0, 0, [];
    }

    /** `_get_universe` without sampling: the three loops over the query results, then the list date filter. */
    method GetUniverse(basic: seq<BasicRow>, bak: seq<BakRow>, known: set<string>)
        returns (uni: seq<(string, Listing)>)
      modifies this
      ensures uni == UniverseOf(basic, bak, known)
      ensures universeCount == |uni| && gapsFound == old(gapsFound) && gaps == old(gaps)
    {
      var u := Universe([], map[]);
      var i := 0;
      while i < |basic|
        invariant 0 <= i <= |basic|
        invariant u == FromBasic(basic[..i])
      {
        assert basic[..i + 1][..i] == basic[..i];
        u := Put(u, basic[i].code, Listing(ValidOrNone(basic[i].list), ValidOrNone(basic[i].delist)));
        i := i + 1;
      }
      assert basic[..i] == basic;
      var start := u;
      FromBasicWf(basic);
      var listed := Filter(bak, BakListed);
      i := 0;
      while i < |listed|
        invariant 0 <= i <= |listed|
        invariant u == FromBak(start, listed[..i], known)
      {
        assert listed[..i + 1][..i] == listed[..i];
        u := BakStep(u, listed[i], known);
        i := i + 1;
      }
      assert listed[..i] == listed;
      FromBakWf(start, listed, known);
      uni := ListUniverse(u);
      universeCount := |uni|;
    }

    /** `_process_batch`: the gap details of each entry of `batch` are appended. */
    method ProcessBatch(batch: seq<(string, Listing)>, days: seq<string>, checkEnd: string, st: Stored)
      requires Valid()
      modifies this
      ensures Valid()
      ensures gaps == old(gaps) + BatchGaps(batch, days, checkEnd, st)
      ensures universeCount == old(universeCount)
    {
      var i := 0;
      while i < |batch|
        invariant 0 <= i <= |batch|
        invariant Valid() && universeCount == old(universeCount)
        invariant gaps == old(gaps) + BatchGaps(batch[..i], days, checkEnd, st)
      {
        ghost var prior := gaps;
        ScanItem(batch[i], days, checkEnd, st);
        BatchGapsSnoc(batch, i, days, checkEnd, st, old(gaps), prior, gaps);
        i := i + 1;
      }
      assert batch[..i] == batch;
    }

    /** The analysis of one entry: each expected day that is a gap is counted and recorded. */
    method ScanItem(item: (string, Listing), days: seq<string>, checkEnd: string, st: Stored)
      requires Valid()
      modifies this
      ensures Valid() && universeCount == old(universeCount)
      ensures gaps == old(gaps) + ItemGaps(item, days, checkEnd, st)
    {
      if !Truthy(item.1.list) {
        return;
      }
      var expected := Expected(days, item.1.list.value, EndDate(item.1.delist, checkEnd));
      ScanDays(item.0, expected, st);
    }

    /** The loop over the expected days of one code. */
    method ScanDays(code: string, expected: seq<string>, st: Stored)
      requires Valid()
      modifies this
      ensures Valid() && universeCount == old(universeCount)
      ensures gaps == old(gaps) + DayGaps(code, expected, st)
    {
      var j := 0;
      while j < |expected|
        invariant 0 <= j <= |expected|
        invariant Valid() && universeCount == old(universeCount)
        invariant gaps == old(gaps) + DayGaps(code, expected[..j], st)
      {
        ghost var prior := gaps;
        ScanDay(code, expected[j], st);
        DayGapsSnoc(code, expected, j, st, old(gaps), prior, gaps);
        j := j + 1;
      }
      assert expected[..j] == expected;
    }

    /** One expected day: a gap is counted and its details kept. */
    method ScanDay(code: string, d: string, st: Stored)
      requires Valid()
      modifies this
      ensures Valid() && universeCount == old(universeCount)
      ensures gaps == old(gaps) + DayGapList(code, d, st)
    {
      var g := DayGap(code, d, st);
      if g.Some? {
        gapsFound := gapsFound + 1;
        gaps := gaps + [g.value];
      }
    }

    /** `scan_gaps`: the universe in batches of 500 entries. */
    method ScanGaps(universe: seq<(string, Listing)>, days: seq<string>, checkEnd: string, st: Stored)
      requires Valid()
      modifies this
      ensures Valid()
      ensures gaps == old(gaps) + BatchGaps(universe, days, checkEnd, st)
    {
      var total := (|universe| + 499) / 500;
      var b, done := 0, 0;
      while b < total
        invariant 0 <= b <= total && done == Remote.Min(b * 500, |universe|)
        invariant Valid()
        invariant gaps == old(gaps) + BatchGaps(universe[..done], days, checkEnd, st)
      {
        var hi := Remote.Min((b + 1) * 500, |universe|);
        ghost var prior := gaps;
        ProcessBatch(universe[done..hi], days, checkEnd, st);
        NextBatch(universe, done, hi, days, checkEnd, st, old(gaps), prior, gaps);
        b, done := b + 1, hi;
      }
      assert universe[..done] == universe;
    }
  }

  /** One more expected day, seen from the details appended so far. */
  lemma DayGapsSnoc(code: string, ds: seq<string>, j: nat, st: Stored, start: seq<Gap>, prior: seq<Gap>, after: seq<Gap>)
    requires j < |ds|
    requires prior == start + DayGaps(code, ds[..j], st)
    requires after == prior + DayGapList(code, ds[j], st)
    ensures after == start + DayGaps(code, ds[..j + 1], st)
  {
    assert ds[..j + 1][..j] == ds[..j];
  }

  /** One more entry of the batch, seen from the details appended so far. */
  lemma BatchGapsSnoc(batch: seq<(string, Listing)>, i: nat, days: seq<string>, checkEnd: string, st: Stored,
                      start: seq<Gap>, prior: seq<Gap>, after: seq<Gap>)
    requires i < |batch|
    requires prior == start + BatchGaps(batch[..i], days, checkEnd, st)
    requires after == prior + ItemGaps(batch[i], days, checkEnd, st)
    ensures after == start + BatchGaps(batch[..i + 1], days, checkEnd, st)
  {
    var b := batch[..i + 1];
    assert b[..|b| - 1] == batch[..i] && b[|b| - 1] == batch[i];
    BatchGapsLast(b, batch[..i], days, checkEnd, st);
  }

  lemma NextBatch(universe: seq<(string, Listing)>, lo: nat, hi: nat, days: seq<string>, checkEnd: string, st: Stored,
                  start: seq<Gap>, prior: seq<Gap>, after: seq<Gap>)
    requires lo <= hi <= |universe|
    requires prior == start + BatchGaps(universe[..lo], days, checkEnd, st)
    requires after == prior + BatchGaps(universe[lo..hi], days, checkEnd, st)
    ensures after == start + BatchGaps(universe[..hi], days, checkEnd, st)
  {
    BatchGapsSplit(universe[..hi], lo, days, checkEnd, st);
    assert universe[..hi][..lo] == universe[..lo] && universe[..hi][lo..] == universe[lo..hi];
  }

  /** `uni_list` built from the finished dict. */
  method ListUniverse(u: Universe) returns (uni: seq<(string, Listing)>)
    requires forall c :: c in u.order ==> c in u.entries
    ensures uni == Listed(u)
  {
    uni := [];
    var i := 0;
    while i < |u.order|
      invariant 0 <= i <= |u.order|
      invariant uni == Listed(Universe(u.order[..i], u.entries))
    {
      assert u.order[..i + 1][..i] == u.order[..i];
      var c := u.order[i];
      if Truthy(u.entries[c].list) {
        uni := uni + [(c, u.entries[c])];
      }
      i := i + 1;
    }
    assert u.order[..i] == u.order;
  }

  /** Scanning a run of entries in two parts gives the same details as scanning it whole. */
  lemma {:induction false} BatchGapsSplit(batch: seq<(string, Listing)>, k: nat, days: seq<string>, checkEnd: string, st: Stored)
    requires k <= |batch|
    ensures BatchGaps(batch, days, checkEnd, st) == BatchGaps(batch[..k], days, checkEnd, st) + BatchGaps(batch[k..], days, checkEnd, st)
    decreases |batch|
  {
    if k < |batch| {
      var init := batch[..|batch| - 1];
      BatchGapsSplit(init, k, days, checkEnd, st);
      assert init[..k] == batch[..k];
      BatchGapsLast(batch, init, days, checkEnd, st);
      var tail := batch[k..];
      assert tail[..|tail| - 1] == init[k..] && tail[|tail| - 1] == batch[|batch| - 1];
      BatchGapsLast(tail, init[k..], days, checkEnd, st);
      var a, b, x := BatchGaps(batch[..k], days, checkEnd, st), BatchGaps(init[k..], days, checkEnd, st),
        ItemGaps(batch[|batch| - 1], days, checkEnd, st);
      assert (a + b) + x == a + (b + x);
    } else {
      assert batch[..k] == batch;
    }
  }

  lemma BatchGapsLast(b: seq<(string, Listing)>, init: seq<(string, Listing)>, days: seq<string>, checkEnd: string, st: Stored)
    requires b != [] && init == b[..|b| - 1]
    ensures BatchGaps(b, days, checkEnd, st) == BatchGaps(init, days, checkEnd, st) + ItemGaps(b[|b| - 1], days, checkEnd, st)
  {
  }

  /** Every gap of a code lies on one of the days scanned, is not suspended and misses a table. */
  lemma {:induction false} DayGapsSound(code: string, ds: seq<string>, st: Stored, g: Gap)
    requires g in DayGaps(code, ds, st)
    ensures g.code == code && g.date in ds && DayGap(code, g.date, st) == Some(g)
  {
    if ds != [] {
      if g in DayGaps(code, ds[..|ds| - 1], st) {
        DayGapsSound(code, ds[..|ds| - 1], st, g);
      }
    }
  }

  /** Every day scanned that is not suspended and misses a table yields a gap. */
  lemma {:induction false} DayGapsComplete(code: string, ds: seq<string>, st: Stored, d: string)
    requires d in ds && DayGap(code, d, st).Some?
    ensures DayGap(code, d, st).value in DayGaps(code, ds, st)
  {
    if d != ds[|ds| - 1] {
      assert d in ds[..|ds| - 1];
      DayGapsComplete(code, ds[..|ds| - 1], st, d);
    }
  }

  /**
   * A gap is reported for entry `item` exactly on the trade days from its
   * list date to its end date that are not suspended and miss a table.
   */
  lemma ItemGapsExact(item: (string, Listing), days: seq<string>, checkEnd: string, st: Stored, d: string)
    requires Truthy(item.1.list)
    ensures (exists g :: g in ItemGaps(item, days, checkEnd, st) && g.date == d)
        <==> && d in days && StrLe(item.1.list.value, d) && StrLe(d, EndDate(item.1.delist, checkEnd))
             && (item.0, d) !in st.susp
             && !((item.0, d) in st.daily && (item.0, d) in st.adj && (item.0, d) in st.basic)
  {
    var ds := Expected(days, item.1.list.value, EndDate(item.1.delist, checkEnd));
    if g :| g in ItemGaps(item, days, checkEnd, st) && g.date == d {
      DayGapsSound(item.0, ds, st, g);
    }
    if d in ds && DayGap(item.0, d, st).Some? {
      DayGapsComplete(item.0, ds, st, d);
      assert DayGap(item.0, d, st).value in ItemGaps(item, days, checkEnd, st);
    }
  }

  /** Every detail of a scan belongs to an entry of the universe with a list date. */
  lemma {:induction false} BatchGapsFrom(batch: seq<(string, Listing)>, days: seq<string>, checkEnd: string, st: Stored, g: Gap)
    requires g in BatchGaps(batch, days, checkEnd, st)
    ensures exists item :: item in batch && Truthy(item.1.list) && g in ItemGaps(item, days, checkEnd, st)
  {
    var init := batch[..|batch| - 1];
    if g in BatchGaps(init, days, checkEnd, st) {
      BatchGapsFrom(init, days, checkEnd, st, g);
      var item :| item in init && Truthy(item.1.list) && g in ItemGaps(item, days, checkEnd, st);
      assert item in batch;
    } else {
      assert batch[|batch| - 1] in batch;
    }
  }

  /** A suspended day is never reported as a gap. */
  lemma SuspendedNeverGap(universe: seq<(string, Listing)>, days: seq<string>, checkEnd: string, st: Stored, g: Gap)
    requires g in BatchGaps(universe, days, checkEnd, st)
    ensures (g.code, g.date) !in st.susp
  {
    BatchGapsFrom(universe, days, checkEnd, st, g);
    var item :| item in universe && Truthy(item.1.list) && g in ItemGaps(item, days, checkEnd, st);
    DayGapsSound(item.0, Expected(days, item.1.list.value, EndDate(item.1.delist, checkEnd)), st, g);
  }

  // ---------------------------------------------------------------------------
  // Folding dates into ranges (lines 306-354)
  // ---------------------------------------------------------------------------

  /** `int(s)` on a string of ASCII digits; None where the model takes `int` to raise. */
  function ParseNat(s: string): (r: Option<nat>)
    ensures r.Some? <==> s != [] && forall i :: 0 <= i < |s| ==> Calendar.IsDigit(s[i])
  {
    if s == [] then None
    else if !Calendar.IsDigit(s[|s| - 1]) then None
    else if |s| == 1 then Some((s[0] - '0') as nat)
    else
      match ParseNat(s[..|s| - 1])
      case None => None
      case Some(n) => Some(10 * n + (s[|s| - 1] - '0') as nat)
  }

  /** `[int(d) for d in dates]`, or None when one of them raises. */
  function ParseAll(ds: seq<string>): (r: Option<seq<nat>>)
    ensures r.Some? <==> forall i :: 0 <= i < |ds| ==> ParseNat(ds[i]).Some?
    ensures r.Some? ==> |r.value| == |ds| && forall i :: 0 <= i < |ds| ==> r.value[i] == ParseNat(ds[i]).value
  {
    if ds == [] then Some([])
    else
      match ParseAll(ds[..|ds| - 1])
      case None => None
      case Some(ns) =>
        match ParseNat(ds[|ds| - 1])
        case None => None
        case Some(n) => Some(ns + [n])
  }

  predicate SortedNats(s: seq<nat>) {
    forall i, j :: 0 <= i < j < |s| ==> s[i] <= s[j]
  }

  function InsertNat(x: nat, s: seq<nat>): (r: seq<nat>)
    requires SortedNats(s)
    ensures SortedNats(r) && multiset(r) == multiset(s) + multiset{x}
  {
    if s == [] then [x]
    else if x <= s[0] then
      SortedFront(x, s);
      [x] + s
    else
      var rest := InsertNat(x, s[1..]);
      assert s == [s[0]] + s[1..];
      InsertedBound(s[0], x, s[1..], rest);
      SortedCons(s[0], rest);
      [s[0]] + rest
  }

  lemma SortedFront(x: nat, s: seq<nat>)
    requires SortedNats(s) && s != [] && x <= s[0]
    ensures SortedNats([x] + s)
  {
    assert forall j :: 0 < j < |s| ==> s[0] <= s[j];
  }

  lemma SortedCons(a: nat, r: seq<nat>)
    requires SortedNats(r) && forall j :: 0 <= j < |r| ==> a <= r[j]
    ensures SortedNats([a] + r)
  {
  }

  /** A lower bound of `s` and `x` bounds every element of a permutation of `s` plus `x`. */
  lemma InsertedBound(a: nat, x: nat, s: seq<nat>, r: seq<nat>)
    requires a <= x && (forall j :: 0 <= j < |s| ==> a <= s[j])
    requires multiset(r) == multiset(s) + multiset{x}
    ensures forall j :: 0 <= j < |r| ==> a <= r[j]
  {
    forall j | 0 <= j < |r| ensures a <= r[j] {
      assert r[j] in multiset(r);
      if r[j] != x {
        assert r[j] in multiset(s);
        var k :| 0 <= k < |s| && s[k] == r[j];
      }
    }
  }

  /** `sorted(...)`. */
  function SortNats(s: seq<nat>): (r: seq<nat>)
    ensures SortedNats(r) && multiset(r) == multiset(s)
  {
    if s == [] then []
    else
      assert s == [s[0]] + s[1..];
      InsertNat(s[0], SortNats(s[1..]))
  }

  /** The integers `lo, lo + 1, …, hi` of one range. */
  function Span(lo: nat, hi: nat): (s: seq<nat>)
    requires lo <= hi
    ensures |s| == hi - lo + 1 && forall i :: 0 <= i < |s| ==> s[i] == lo + i
    decreases hi - lo
  {
    if lo == hi then [lo] else [lo] + Span(lo + 1, hi)
  }

  /** All the integers of a sequence of ranges, in order. */
  function Flatten(rs: seq<(nat, nat)>): seq<nat>
    requires forall k :: 0 <= k < |rs| ==> rs[k].0 <= rs[k].1
  {
    if rs == [] then [] else Flatten(rs[..|rs| - 1]) + Span(rs[|rs| - 1].0, rs[|rs| - 1].1)
  }

  /** Adjacent ranges are not contiguous: each range is a maximal run. */
  predicate Separated(rs: seq<(nat, nat)>) {
    forall k :: 0 <= k < |rs| - 1 ==> rs[k + 1].0 != rs[k].1 + 1
  }

  predicate WellFormed(rs: seq<(nat, nat)>) {
    forall k :: 0 <= k < |rs| ==> rs[k].0 <= rs[k].1
  }

  /** The loop over `dates[1:]` from the state (`ranges`, `start`, `prev`). */
  function Fold(ranges: seq<(nat, nat)>, start: nat, prev: nat, rest: seq<nat>): seq<(nat, nat)>
    decreases |rest|
  {
    if rest == [] then ranges + [(start, prev)]
    else if rest[0] == prev + 1 then Fold(ranges, start, rest[0], rest[1..])
    else Fold(ranges + [(start, prev)], rest[0], rest[0], rest[1..])
  }

  /** The ranges of a non-empty sorted list. */
  function Runs(xs: seq<nat>): seq<(nat, nat)>
    requires xs != []
  {
    Fold([], xs[0], xs[0], xs[1..])
  }

  /** One range as text: "a" for a single day, "a~b" otherwise. */
  function Label(r: (nat, nat)): (s: string) {
    if r.0 == r.1 then Calendar.NatStr(r.0) else Calendar.NatStr(r.0) + "~" + Calendar.NatStr(r.1)
  }

  /** `_dates_to_ranges`. */
  method DatesToRanges(dates: seq<string>) returns (out: seq<string>)
    ensures dates == [] ==> out == []
    ensures ParseAll(dates).None? ==> out == dates
    ensures ParseAll(dates).Some? && dates != [] ==>
      out == Labels(Runs(SortNats(ParseAll(dates).value)))
  {
    if dates == [] {
      return [];
    }
    var parsed := ParseAll(dates);
    if parsed.None? {
      return dates;
    }
    var xs := SortNats(parsed.value);
    var rs := FoldRuns(xs);
    out := LabelAll(rs);
  }

  function Labels(rs: seq<(nat, nat)>): seq<string>
  {
    seq(|rs|, k requires 0 <= k < |rs| => Label(rs[k]))
  }

  method LabelAll(rs: seq<(nat, nat)>) returns (out: seq<string>)
    ensures out == Labels(rs)
  {
    out := [];
    var i := 0;
    while i < |rs|
      invariant 0 <= i <= |rs|
      invariant out == Labels(rs[..i])
    {
      out := out + [Label(rs[i])];
      i := i + 1;
    }
    assert rs[..i] == rs;
  }

  /** The `for d in dates[1:]` loop with its `start`/`prev` cursor. */
  method FoldRuns(xs: seq<nat>) returns (ranges: seq<(nat, nat)>)
    requires xs != []
    ensures ranges == Runs(xs)
  {
    ranges := [];
    var start: nat, prev: nat := xs[0], xs[0];
    var i := 1;
    while i < |xs|
      invariant 1 <= i <= |xs|
      invariant Fold(ranges, start, prev, xs[i..]) == Runs(xs)
    {
      assert xs[i..][0] == xs[i] && xs[i..][1..] == xs[i + 1..];
      if xs[i] == prev + 1 {
        prev := xs[i];
      } else {
        ranges := ranges + [(start, prev)];
        start := xs[i];
        prev := xs[i];
      }
      i := i + 1;
    }
    ranges := ranges + [(start, prev)];
  }

  /** The invariant of the fold: the ranges so far and the open range spell out the consumed input. */
  predicate FoldState(xs: seq<nat>, ranges: seq<(nat, nat)>, start: nat, prev: nat, n: nat) {
    && 0 < n <= |xs| && start <= prev && prev == xs[n - 1]
    && WellFormed(ranges) && Separated(ranges + [(start, prev)])
    && Flatten(ranges) + Span(start, prev) == xs[..n]
  }

  lemma FlattenSnoc(rs: seq<(nat, nat)>, r: (nat, nat))
    requires WellFormed(rs) && r.0 <= r.1
    ensures WellFormed(rs + [r]) && Flatten(rs + [r]) == Flatten(rs) + Span(r.0, r.1)
  {
    assert (rs + [r])[..|rs|] == rs;
  }

  lemma FoldExtend(xs: seq<nat>, ranges: seq<(nat, nat)>, start: nat, prev: nat, n: nat)
    requires FoldState(xs, ranges, start, prev, n) && n < |xs| && xs[n] == prev + 1
    ensures FoldState(xs, ranges, start, xs[n], n + 1)
  {
    SpanSnoc(start, prev);
    assert xs[..n + 1] == xs[..n] + [xs[n]];
    SeparatedWiden(ranges, start, prev, xs[n]);
  }

  lemma SpanSnoc(lo: nat, hi: nat)
    requires lo <= hi
    ensures Span(lo, hi + 1) == Span(lo, hi) + [hi + 1]
  {
  }

  /** Moving the end of the last range keeps the ranges separated. */
  lemma SeparatedWiden(ranges: seq<(nat, nat)>, start: nat, prev: nat, next: nat)
    requires Separated(ranges + [(start, prev)])
    ensures Separated(ranges + [(start, next)])
  {
    var rs := ranges + [(start, prev)];
    var rs' := ranges + [(start, next)];
    forall k | 0 <= k < |rs'| - 1 ensures rs'[k + 1].0 != rs'[k].1 + 1 {
      assert rs'[k] == rs[k] && rs'[k + 1].0 == rs[k + 1].0;
    }
  }

  lemma FoldBreak(xs: seq<nat>, ranges: seq<(nat, nat)>, start: nat, prev: nat, n: nat)
    requires FoldState(xs, ranges, start, prev, n) && n < |xs| && xs[n] != prev + 1
    ensures FoldState(xs, ranges + [(start, prev)], xs[n], xs[n], n + 1)
  {
    FlattenSnoc(ranges, (start, prev));
    assert xs[..n + 1] == xs[..n] + [xs[n]];
    SeparatedBreak(ranges + [(start, prev)], xs[n]);
  }

  /** A new range that does not continue the last one keeps the ranges separated. */
  lemma SeparatedBreak(rs: seq<(nat, nat)>, next: nat)
    requires Separated(rs) && rs != [] && next != rs[|rs| - 1].1 + 1
    ensures Separated(rs + [(next, next)])
  {
    var rs' := rs + [(next, next)];
    forall k | 0 <= k < |rs'| - 1 ensures rs'[k + 1].0 != rs'[k].1 + 1 {
      assert rs'[k] == rs[k];
    }
  }

  /** The ranges are well formed, separated and spell out `xs`. */
  predicate Shaped(rs: seq<(nat, nat)>, xs: seq<nat>) {
    WellFormed(rs) && Separated(rs) && Flatten(rs) == xs
  }

  lemma {:induction false} FoldShape(xs: seq<nat>, ranges: seq<(nat, nat)>, start: nat, prev: nat, n: nat)
    requires FoldState(xs, ranges, start, prev, n)
    ensures Shaped(Fold(ranges, start, prev, xs[n..]), xs)
    decreases |xs| - n
  {
    if n == |xs| {
      FoldDone(xs, ranges, start, prev, n);
    } else {
      FoldUnfold(ranges, start, prev, xs[n..]);
      assert xs[n..][0] == xs[n] && xs[n..][1..] == xs[n + 1..];
      if xs[n] == prev + 1 {
        FoldExtend(xs, ranges, start, prev, n);
        FoldShape(xs, ranges, start, xs[n], n + 1);
      } else {
        FoldBreak(xs, ranges, start, prev, n);
        FoldShape(xs, ranges + [(start, prev)], xs[n], xs[n], n + 1);
      }
    }
  }

  lemma FoldDone(xs: seq<nat>, ranges: seq<(nat, nat)>, start: nat, prev: nat, n: nat)
    requires FoldState(xs, ranges, start, prev, n) && n == |xs|
    ensures Shaped(Fold(ranges, start, prev, xs[n..]), xs)
  {
    assert xs[n..] == [];
    FlattenSnoc(ranges, (start, prev));
    assert xs[..n] == xs;
  }

  lemma FoldUnfold(ranges: seq<(nat, nat)>, start: nat, prev: nat, rest: seq<nat>)
    requires rest != []
    ensures Fold(ranges, start, prev, rest) ==
      if rest[0] == prev + 1 then Fold(ranges, start, rest[0], rest[1..])
      else Fold(ranges + [(start, prev)], rest[0], rest[0], rest[1..])
  {
  }

  /**
   * The ranges spell out the input exactly, in order, each is a run of
   * consecutive integers and no two neighbouring ranges could be merged.
   */
  lemma RunsShape(xs: seq<nat>)
    requires xs != []
    ensures WellFormed(Runs(xs)) && Separated(Runs(xs)) && Flatten(Runs(xs)) == xs
  {
    assert Span(xs[0], xs[0]) == [xs[0]] && xs[..1] == [xs[0]];
    FoldShape(xs, [], xs[0], xs[0], 1);
  }

  /** A range is written with a tilde exactly when it spans more than one day. */
  lemma LabelTilde(r: (nat, nat))
    ensures '~' in Label(r) <==> r.0 != r.1
  {
    if r.0 != r.1 {
      assert Label(r)[|Calendar.NatStr(r.0)|] == '~';
    }
  }
}
