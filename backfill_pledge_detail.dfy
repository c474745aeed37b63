/**
 * scripts/backfill_pledge_detail.py: the backfill of the share-pledge detail
 * table `pledge_detail`, one stock at a time.
 *
 * The stocks are the codes of `pledge_stat`, chosen by mode: every code
 * (force), the codes whose latest pledge count exceeds the number of stored
 * detail rows (smart), or the codes with no stored detail row (default). In
 * force mode the stored rows of the chosen codes are deleted first. Each
 * stock's pages are fetched; non-empty answers are buffered and flushed to
 * `store_data` with `insert_new` every 50 frames and at the last stock. A
 * 60-second pause follows every 350 stocks.
 *
 * The reference database is a `Database`. The answer of the `pledge_stat`
 * aggregate query is an input; the API of each stock is an `Api`.
 */
module BackfillPledgeDetail {
  import opened Common
  import opened Db
  import opened Remote
  import opened Storage

  const TableName: string := "pledge_detail"
  /** Paging stops once the next offset would reach this. */
  const MaxOffset: nat := 10000
  /** Codes per DELETE statement in force mode. */
  const DeleteBatch: nat := 500
  /** Buffered frames that trigger a write. */
  const FlushAt: nat := 50
  /** Stocks between two pauses. */
  const PauseEvery: nat := 350
  const PauseSeconds: nat := 60

  // ---------------------------------------------------------------------------
  // fetch_detail_for_stock (lines 26-53)
  // ---------------------------------------------------------------------------

  /** `Some(pages)` with the pages in offset order, or None when a call raised. */
  function Pages(api: Api, limit: nat, offset: nat): (r: Option<seq<Frame>>)
    decreases MaxOffset - offset
  {
    if api.fault(offset, 0).Some? then None
    else
      var page := Slice(api, offset, limit);
      if page == [] || |page| < limit || offset + limit >= MaxOffset then
        Some(if page == [] then [] else [page])
      else
        match Pages(api, limit, offset + limit)
        case None => None
        case Some(rest) => Some([page] + rest)
  }

  /** The pages joined; an empty frame when a call raised, however many pages came before. */
  function FetchDetail(api: Api, limit: nat): Frame {
    match Pages(api, limit, 0)
    case None => []
    case Some(ps) => Concat(ps)
  }

  /**
   * From an API that never raises, the pages from `offset` are the result set
   * from `offset` up to the end or the 10000-row cap, whichever comes first.
   */
  lemma {:induction false} PagesReliable(api: Api, limit: nat, offset: nat)
    requires Reliable(api) && limit > 0 && offset <= |api.data| && offset < MaxOffset
    ensures Pages(api, limit, offset).Some?
    ensures Concat(Pages(api, limit, offset).value) == api.data[offset..Min(|api.data|, Reach(MaxOffset, limit, offset))]
    decreases MaxOffset - offset
  {
    var page := Slice(api, offset, limit);
    if page == [] || |page| < limit || offset + limit >= MaxOffset {
      LastPage(api, limit, offset);
    } else {
      SliceFull(api, offset, limit);
      PagesReliable(api, limit, offset + limit);
      NextPage(api, limit, offset);
    }
  }

  /** The case where paging stops at `offset`. */
  lemma LastPage(api: Api, limit: nat, offset: nat)
    requires Reliable(api) && limit > 0 && offset <= |api.data| && offset < MaxOffset
    requires var page := Slice(api, offset, limit); page == [] || |page| < limit || offset + limit >= MaxOffset
    ensures Pages(api, limit, offset).Some?
    ensures Concat(Pages(api, limit, offset).value) == api.data[offset..Min(|api.data|, Reach(MaxOffset, limit, offset))]
  {
    assert api.fault(offset, 0).None?;
    var page := Slice(api, offset, limit);
    if page == [] {
      assert Concat<Row>([]) == [];
    } else {
      assert Concat([page]) == page + Concat<Row>([]);
    }
  }

  /** The case where paging goes on past `offset`: this page in front of the rest. */
  lemma NextPage(api: Api, limit: nat, offset: nat)
    requires Reliable(api) && limit > 0 && offset < MaxOffset
    requires var page := Slice(api, offset, limit); page != [] && |page| == limit && offset + limit < MaxOffset
    requires offset + limit <= |api.data|
    requires Pages(api, limit, offset + limit).Some?
    requires Concat(Pages(api, limit, offset + limit).value)
          == api.data[offset + limit..Min(|api.data|, Reach(MaxOffset, limit, offset + limit))]
    ensures Pages(api, limit, offset).Some?
    ensures Concat(Pages(api, limit, offset).value) == api.data[offset..Min(|api.data|, Reach(MaxOffset, limit, offset))]
  {
    assert api.fault(offset, 0).None?;
    var page := Slice(api, offset, limit);
    var rest := Pages(api, limit, offset + limit).value;
    assert Pages(api, limit, offset) == Some([page] + rest);
    assert ([page] + rest)[1..] == rest;
    assert Concat([page] + rest) == page + Concat(rest);
    var m := Min(|api.data|, Reach(MaxOffset, limit, offset + limit));
    ReachStep(MaxOffset, limit, offset);
    SliceFull(api, offset, limit);
    SliceJoin(api.data, offset, offset + limit, m);
  }

  /**
   * Without faults, a stock's detail is its whole result set when it holds at
   * most 10000 rows, and otherwise its first rows up to the first page boundary
   * at or past 10000.
   */
  lemma FetchDetailReliable(api: Api, limit: nat)
    requires Reliable(api) && limit > 0
    ensures var df := FetchDetail(api, limit);
      && df == api.data[..Min(|api.data|, Reach(MaxOffset, limit, 0))]
      && (|api.data| <= MaxOffset ==> df == api.data)
      && |df| < MaxOffset + limit
  {
    PagesReliable(api, limit, 0);
  }

  /** A fault on the second page discards the full first page: the answer is empty. */
  lemma FaultDiscardsPages(api: Api, limit: nat)
    requires 0 < limit < MaxOffset && limit <= |api.data|
    requires api.fault(0, 0).None? && api.fault(limit, 0).Some?
    ensures Slice(api, 0, limit) != [] && FetchDetail(api, limit) == []
  {
  }

  /** Pages collected so far in front of the rest, or None when the rest raised. */
  function Prepend(acc: seq<Frame>, r: Option<seq<Frame>>): Option<seq<Frame>> {
    match r
    case None => None
    case Some(ps) => Some(acc + ps)
  }

  lemma PrependNil(r: Option<seq<Frame>>)
    ensures Prepend([], r) == r
  {
    if r.Some? {
      assert [] + r.value == r.value;
    }
  }

  lemma PrependTwice(a: seq<Frame>, b: seq<Frame>, r: Option<seq<Frame>>)
    ensures Prepend(a + b, r) == Prepend(a, Prepend(b, r))
  {
    if r.Some? {
      assert (a + b) + r.value == a + (b + r.value);
    }
  }

  /** The paging loop of lines 31-53, proved against `FetchDetail`. */
  method FetchDetailForStock(api: Api, limit: nat) returns (df: Frame)
    ensures df == FetchDetail(api, limit)
  {
    var all: seq<Frame> := [];
    var offset: nat := 0;
    ghost var goal := Pages(api, limit, 0);
    PrependNil(goal);
    while true
      invariant offset < MaxOffset
      invariant goal == Prepend(all, Pages(api, limit, offset))
      decreases MaxOffset - offset
    {
      if api.fault(offset, 0).Some? {
        return [];
      }
      var page := Slice(api, offset, limit);
      if page == [] {
        assert all + [] == all;
        return Concat(all);
      }
      all := all + [page];
      if |page| < limit {
        return Concat(all);
      }
      ghost var before := offset;
      offset := offset + limit;
      if offset >= MaxOffset {
        return Concat(all);
      }
      assert Pages(api, limit, before) == Prepend([page], Pages(api, limit, offset));
      PrependTwice(all[..|all| - 1], [page], Pages(api, limit, offset));
      assert all[..|all| - 1] + [page] == all;
    }
  }

  // ---------------------------------------------------------------------------
  // get_stocks_to_update (lines 56-103)
  // ---------------------------------------------------------------------------

  /** One answer row of the `pledge_stat` query: a code and its MAX(pledge_count). */
  datatype StatRow = StatRow(code: string, latest: Option<int>)

  datatype Mode = Default | Force | Smart

  /** The chosen codes and the storage mode that comes back with them. */
  datatype Selection = Selection(codes: seq<string>, storageMode: string)

  /** The keys of the `stat_data` dict: every code once, in first-seen order. */
  function Codes(stat: seq<StatRow>): (cs: seq<string>)
    ensures NoDuplicates(cs)
    ensures forall c :: c in cs <==> exists k :: 0 <= k < |stat| && stat[k].code == c
  {
    if stat == [] then []
    else
      var init := stat[..|stat| - 1];
      var rest := Codes(init);
      assert forall k :: 0 <= k < |init| ==> init[k] == stat[k];
      var c := stat[|stat| - 1].code;
      if c in rest then rest else rest + [c]
  }

  /** `stat_data.get(c, 0) or 0`: the value of the last row for `c`, a null or missing value read as 0. */
  function StatCount(stat: seq<StatRow>, c: string): (n: int)
    ensures stat != [] && stat[|stat| - 1].code == c ==>
      n == (if stat[|stat| - 1].latest.Some? then stat[|stat| - 1].latest.value else 0)
  {
    if stat == [] then 0
    else
      var last := stat[|stat| - 1];
      if last.code == c then (if last.latest.Some? then last.latest.value else 0)
      else StatCount(stat[..|stat| - 1], c)
  }

  /** A code without a `pledge_stat` row counts 0. */
  lemma {:induction false} StatCountAbsent(stat: seq<StatRow>, c: string)
    requires c !in Codes(stat)
    ensures StatCount(stat, c) == 0
  {
    if stat != [] {
      var init := stat[..|stat| - 1];
      assert forall k :: 0 <= k < |init| ==> init[k] == stat[k];
      assert c !in Codes(init);
      StatCountAbsent(init, c);
    }
  }

  predicate HasCode(r: Row, c: string) {
    Get(r, "ts_code") == Some(c)
  }

  /** The number of stored detail rows of `c` (the `detail_counts` query, 0 for an absent code). */
  function DetailCount(rows: Frame, c: string): (n: nat)
    ensures n == 0 <==> forall r :: r in rows ==> !HasCode(r, c)
    ensures n <= |rows|
  {
    var f := Filter(rows, (r: Row) => HasCode(r, c));
    if f == [] then 0 else assert f[0] in f; |f|
  }

  /** The smart-mode test: the latest pledge count exceeds the stored detail rows. */
  predicate Changed(stat: seq<StatRow>, rows: Frame, c: string) {
    StatCount(stat, c) > DetailCount(rows, c)
  }

  /** The smart-mode test as a filter condition. */
  function ChangedTest(stat: seq<StatRow>, rows: Frame): string -> bool {
    c => Changed(stat, rows, c)
  }

  function Select(stat: seq<StatRow>, rows: Frame, mode: Mode): (s: Selection)
    ensures s.storageMode == (if mode == Force then "replace" else "insert_new")
    ensures NoDuplicates(s.codes) && |s.codes| <= |Codes(stat)|
    ensures mode == Force ==> s.codes == Codes(stat)
    ensures mode == Smart ==> forall c :: c in s.codes <==> c in Codes(stat) && Changed(stat, rows, c)
    ensures mode == Default ==> forall c :: c in s.codes <==> c in Codes(stat) && forall r :: r in rows ==> !HasCode(r, c)
  {
    var all := Codes(stat);
    match mode
    case Force => Selection(all, "replace")
    case Smart =>
      FilterNoDuplicates(all, ChangedTest(stat, rows));
      Selection(Filter(all, ChangedTest(stat, rows)), "insert_new")
    case Default =>
      FilterNoDuplicates(all, c => DetailCount(rows, c) == 0);
      Selection(Filter(all, c => DetailCount(rows, c) == 0), "insert_new")
  }

  /** The smart-mode loop of lines 89-95, proved against `Select`. */
  method ChangedCodes(stat: seq<StatRow>, rows: Frame) returns (changed: seq<string>)
    ensures changed == Select(stat, rows, Smart).codes
  {
    changed := FilterInOrder(Codes(stat), ChangedTest(stat, rows));
  }

  /** A code that is selected in default mode has no stored row, so the smart test holds for it whenever its count is positive. */
  lemma DefaultWithinSmart(stat: seq<StatRow>, rows: Frame, c: string)
    requires c in Select(stat, rows, Default).codes && StatCount(stat, c) > 0
    ensures c in Select(stat, rows, Smart).codes
  {
  }

  // ---------------------------------------------------------------------------
  // Force-mode deletion (lines 136-144)
  // ---------------------------------------------------------------------------

  /** `ts_code IN (...)`: a null code matches nothing. */
  predicate InCodes(r: Row, codes: seq<string>) {
    Get(r, "ts_code").Some? && Get(r, "ts_code").value in codes
  }

  /** The rows a DELETE over `codes` leaves, in order. */
  function Keep(rows: Frame, codes: seq<string>): (kept: Frame)
    ensures forall r :: r in kept <==> r in rows && !InCodes(r, codes)
  {
    Filter(rows, (r: Row) => !InCodes(r, codes))
  }

  /** Two DELETE statements over consecutive batches act as one over both. */
  lemma {:induction false} KeepSplit(rows: Frame, a: seq<string>, b: seq<string>)
    ensures Keep(Keep(rows, a), b) == Keep(rows, a + b)
  {
    if rows != [] {
      KeepSplit(rows[1..], a, b);
      var r := rows[0];
      assert InCodes(r, a + b) <==> InCodes(r, a) || InCodes(r, b);
    }
  }

  /** The state after the deletion: only the detail table changes. */
  function Purged(s: State, codes: seq<string>): (p: State)
    requires TableName in s.tables
    ensures p.meta == s.meta && p.tables.Keys == s.tables.Keys
    ensures forall n :: n in s.tables && n != TableName ==> p.tables[n] == s.tables[n]
    ensures forall r :: r in p.tables[TableName].rows <==> r in s.tables[TableName].rows && !InCodes(r, codes)
  {
    var t := s.tables[TableName];
    State(s.tables[TableName := t.(rows := Keep(t.rows, codes))], s.meta)
  }

  /** The batched DELETE loop, proved against `Purged`. */
  method Purge(db: Database, codes: seq<string>)
    requires TableName in db.tables
    modifies db
    ensures State(db.tables, db.meta) == Purged(State(old(db.tables), old(db.meta)), codes)
  {
    ghost var t0 := db.tables[TableName];
    FilterAll(t0.rows, (r: Row) => !InCodes(r, []));
    assert old(db.tables)[TableName := t0.(rows := Keep(t0.rows, codes[..0]))] == old(db.tables);
    var i := 0;
    while i < |codes|
      invariant 0 <= i <= |codes| && db.meta == old(db.meta)
      invariant db.tables == old(db.tables)[TableName := t0.(rows := Keep(t0.rows, codes[..i]))]
      decreases |codes| - i
    {
      var j := Min(i + DeleteBatch, |codes|);
      var t := db.tables[TableName];
      db.tables := db.tables[TableName := t.(rows := Keep(t.rows, codes[i..j]))];
      KeepSplit(t0.rows, codes[..i], codes[i..j]);
      assert codes[..i] + codes[i..j] == codes[..j];
      i := j;
    }
    assert codes[..i] == codes;
  }

  // ---------------------------------------------------------------------------
  // The stock loop (lines 146-192)
  // ---------------------------------------------------------------------------

  /** The API of each stock, the page size, the writer and the configuration entry. */
  datatype Env = Env(apiOf: string -> Api, limit: nat, w: Writer, keys: seq<string>, entry: Config)

  /**
   * What the loop carries besides the database: the buffered frames, the pause
   * counter, the pauses taken, the stored total, the frames that have left the
   * buffer and the frames handed to `store_data`.
   */
  datatype Tally = Tally(buffer: seq<Frame>, counter: nat, pauses: nat, stored: int, sent: seq<Frame>,
                         written: seq<Frame>)

  datatype Acc = Acc(state: State, tally: Tally)

  const Start: Tally := Tally([], 0, 0, 0, [], [])

  /** A row with all four key fields present (the `dropna` subset of line 173). */
  predicate Complete(r: Row) {
    Get(r, "ts_code").Some? && Get(r, "ann_date").Some? && Get(r, "holder_name").Some? && Get(r, "pledge_amount").Some?
  }

  /** A frame fit to be written: non-empty, unique on the keys, every row complete. */
  predicate Clean(f: Frame, keys: seq<string>) {
    f != [] && KeysUnique(f, keys) && forall r :: r in f ==> Complete(r)
  }

  /** The buffer concatenated, de-duplicated on the keys (first kept) and rid of incomplete rows. */
  function Combined(buf: seq<Frame>, keys: seq<string>): (out: Frame)
    ensures |out| <= |Concat(buf)|
  {
    Filter(DedupFirst(Concat(buf), keys), Complete)
  }

  /** The combined rows are unique on the keys, complete, and each comes from a buffered frame. */
  lemma CombinedClean(buf: seq<Frame>, keys: seq<string>)
    ensures var out := Combined(buf, keys);
      && KeysUnique(out, keys)
      && forall r :: r in out ==> Complete(r) && exists f :: f in buf && r in f
  {
    var all := DedupFirst(Concat(buf), keys);
    DedupFirstUnique(Concat(buf), keys);
    FilterKeysUnique(all, keys, Complete);
  }

  /** The counter step of lines 153-157. */
  function Tick(t: Tally): (u: Tally)
    requires t.counter < PauseEvery
    ensures u.counter == (t.counter + 1) % PauseEvery
    ensures u.pauses == t.pauses + (t.counter + 1) / PauseEvery
    ensures u.buffer == t.buffer && u.stored == t.stored && u.sent == t.sent && u.written == t.written
  {
    if t.counter + 1 >= PauseEvery then t.(counter := 0, pauses := t.pauses + 1) else t.(counter := t.counter + 1)
  }

  /** Every written frame is clean and made of rows of frames that left the buffer. */
  predicate WritesClean(t: Tally, keys: seq<string>) {
    forall f :: f in t.written ==> Clean(f, keys) && forall r :: r in f ==> exists g :: g in t.sent && r in g
  }

  /** A flush (lines 168-188): None when `store_data` raises. */
  function Flush(a: Acc, env: Env): (r: Option<Acc>)
    ensures Combined(a.tally.buffer, env.keys) == [] ==> r.Some? && r.value.state == a.state
  {
    var t := a.tally;
    var combined := Combined(t.buffer, env.keys);
    var u := t.(buffer := [], sent := t.sent + t.buffer);
    if combined == [] then Some(Acc(a.state, u))
    else
      var o := env.w(a.state, TableName, combined, env.keys, Some("ann_date"), "insert_new", None, None, None,
                     Some(env.entry));
      match o.result
      case Raised => None
      case Returned(code) => Some(Acc(o.state, u.(stored := t.stored + Added(code), written := t.written + [combined])))
  }

  /**
   * A flush empties the buffer into the frames sent, never lowers the stored
   * total, leaves the pause counter alone and writes only clean frames.
   */
  lemma FlushFacts(a: Acc, env: Env)
    ensures var r := Flush(a, env);
      && (r.Some? ==> r.value.tally.buffer == [] && r.value.tally.sent == a.tally.sent + a.tally.buffer)
      && (r.Some? ==> r.value.tally.stored >= a.tally.stored)
      && (r.Some? && WritesClean(a.tally, env.keys) ==> WritesClean(r.value.tally, env.keys))
      && (r.Some? ==> r.value.tally.counter == a.tally.counter && r.value.tally.pauses == a.tally.pauses)
  {
    var t := a.tally;
    var combined := Combined(t.buffer, env.keys);
    var r := Flush(a, env);
    CombinedClean(t.buffer, env.keys);
    if r.Some? && WritesClean(t, env.keys) {
      var u := r.value.tally;
      forall f | f in u.written ensures Clean(f, env.keys) && forall x :: x in f ==> exists g :: g in u.sent && x in g {
        if f !in t.written {
          assert f == combined;
          forall x | x in f ensures exists g :: g in u.sent && x in g {
            var g :| g in t.buffer && x in g;
            assert g in u.sent;
          }
        } else {
          forall x | x in f ensures exists g :: g in u.sent && x in g {
            var g :| g in t.sent && x in g;
            assert g in u.sent;
          }
        }
      }
    }
  }

  /** Whether a flush follows the fetch of a stock. */
  predicate FlushDue(buf: seq<Frame>, last: bool) {
    |buf| >= FlushAt || (last && buf != [])
  }

  /** The detail of a stock when non-empty, as the list of frames it adds to the buffer. */
  function Fetched(code: string, env: Env): seq<Frame> {
    var df := FetchDetail(env.apiOf(code), env.limit);
    if df == [] then [] else [df]
  }

  /** One stock: tick, fetch, buffer a non-empty answer, flush when due. */
  function Step(a: Acc, code: string, last: bool, env: Env): (r: Option<Acc>)
    requires a.tally.counter < PauseEvery
    ensures r.None? ==> FlushDue(a.tally.buffer + Fetched(code, env), last)
  {
    var t := Tick(a.tally);
    var b := Acc(a.state, t.(buffer := t.buffer + Fetched(code, env)));
    if FlushDue(b.tally.buffer, last) then Flush(b, env) else Some(b)
  }

  /** One stock ticks the pause counter: it wraps to 0 at 350, when a pause is taken. */
  lemma StepPaces(a: Acc, code: string, last: bool, env: Env)
    requires a.tally.counter < PauseEvery
    ensures var r := Step(a, code, last, env);
      r.Some? ==>
        && r.value.tally.counter == (a.tally.counter + 1) % PauseEvery
        && r.value.tally.pauses == a.tally.pauses + (a.tally.counter + 1) / PauseEvery
  {
    var t := Tick(a.tally);
    FlushFacts(Acc(a.state, t.(buffer := t.buffer + Fetched(code, env))), env);
  }

  /**
   * One stock adds its non-empty answer to what has been buffered or sent,
   * keeps the buffer under 50 frames and empties it at the last stock.
   */
  lemma StepDelivers(a: Acc, code: string, last: bool, env: Env)
    requires a.tally.counter < PauseEvery
    ensures var r := Step(a, code, last, env);
      && (r.Some? ==> r.value.tally.sent + r.value.tally.buffer == a.tally.sent + a.tally.buffer + Fetched(code, env))
      && (r.Some? && |a.tally.buffer| < FlushAt ==> |r.value.tally.buffer| < FlushAt)
      && (r.Some? && last ==> r.value.tally.buffer == [])
  {
    var t := Tick(a.tally);
    var b := Acc(a.state, t.(buffer := t.buffer + Fetched(code, env)));
    FlushFacts(b, env);
    assert (t.sent + t.buffer) + Fetched(code, env) == t.sent + b.tally.buffer;
    assert b.tally.sent + b.tally.buffer + [] == b.tally.sent + b.tally.buffer;
  }

  /** One stock never lowers the stored total and writes only clean frames. */
  lemma StepWrites(a: Acc, code: string, last: bool, env: Env)
    requires a.tally.counter < PauseEvery
    ensures var r := Step(a, code, last, env);
      && (r.Some? ==> r.value.tally.stored >= a.tally.stored)
      && (r.Some? && WritesClean(a.tally, env.keys) ==> WritesClean(r.value.tally, env.keys))
  {
    var t := Tick(a.tally);
    FlushFacts(Acc(a.state, t.(buffer := t.buffer + Fetched(code, env))), env);
  }

  /** Where the loop leaves the run, and whether a store raised on the way. */
  datatype Fed = Fed(acc: Acc, raised: bool)

  /** The stocks from index `i` on. */
  function Loop(stocks: seq<string>, i: nat, a: Acc, env: Env): (r: Fed)
    requires i <= |stocks| && a.tally.counter < PauseEvery
    decreases |stocks| - i
  {
    if i == |stocks| then Fed(a, false)
    else match Step(a, stocks[i], i == |stocks| - 1, env)
      case None => Fed(a, true)
      case Some(b) => Loop(stocks, i + 1, b, env)
  }

  /** The non-empty details of the stocks, in stock order. */
  function AllFetched(stocks: seq<string>, env: Env): (fs: seq<Frame>)
    ensures |fs| <= |stocks| && forall f :: f in fs ==> f != []
  {
    if stocks == [] then [] else Fetched(stocks[0], env) + AllFetched(stocks[1..], env)
  }

  /** The run pauses once every 350 stocks, counting stocks rather than API calls. */
  lemma {:induction false} LoopPaces(stocks: seq<string>, i: nat, a: Acc, env: Env)
    requires i <= |stocks| && a.tally.counter < PauseEvery
    ensures var f := Loop(stocks, i, a, env);
      !f.raised ==>
        && f.acc.tally.pauses == a.tally.pauses + (a.tally.counter + |stocks| - i) / PauseEvery
        && f.acc.tally.counter == (a.tally.counter + |stocks| - i) % PauseEvery
    decreases |stocks| - i
  {
    if i < |stocks| {
      match Step(a, stocks[i], i == |stocks| - 1, env)
      case None =>
      case Some(b) =>
        StepPaces(a, stocks[i], i == |stocks| - 1, env);
        LoopPaces(stocks, i + 1, b, env);
        var c, n := a.tally.counter, |stocks| - i;
        if c + 1 == PauseEvery {
          assert b.tally.counter == 0 && b.tally.pauses == a.tally.pauses + 1;
          assert (c + n) / PauseEvery == 1 + (n - 1) / PauseEvery;
          assert (c + n) % PauseEvery == (n - 1) % PauseEvery;
        } else {
          assert b.tally.counter == c + 1 && b.tally.pauses == a.tally.pauses;
        }
    }
  }

  /**
   * Every non-empty answer is flushed exactly once, in stock order, and nothing
   * is left in the buffer after the last stock.
   */
  predicate Delivered(stocks: seq<string>, i: nat, a: Acc, f: Fed, env: Env)
    requires i <= |stocks|
  {
    !f.raised ==>
      && f.acc.tally.sent + f.acc.tally.buffer == a.tally.sent + a.tally.buffer + AllFetched(stocks[i..], env)
      && (i < |stocks| ==> f.acc.tally.buffer == [])
  }

  lemma {:induction false} LoopDelivers(stocks: seq<string>, i: nat, a: Acc, env: Env)
    requires i <= |stocks| && a.tally.counter < PauseEvery
    ensures Delivered(stocks, i, a, Loop(stocks, i, a, env), env)
    decreases |stocks| - i
  {
    if i == |stocks| {
      assert a.tally.sent + a.tally.buffer + [] == a.tally.sent + a.tally.buffer;
    } else {
      match Step(a, stocks[i], i == |stocks| - 1, env)
      case None =>
      case Some(b) =>
        LoopDelivers(stocks, i + 1, b, env);
        StepDelivers(a, stocks[i], i == |stocks| - 1, env);
        assert stocks[i..][1..] == stocks[i + 1..];
        var x, rest := Fetched(stocks[i], env), AllFetched(stocks[i + 1..], env);
        assert AllFetched(stocks[i..], env) == x + rest;
        var f := Loop(stocks, i + 1, b, env);
        if !f.raised {
          SentStep(a.tally, b.tally, f.acc.tally, x, rest);
        }
    }
  }

  lemma SentStep(a: Tally, b: Tally, f: Tally, x: seq<Frame>, rest: seq<Frame>)
    requires b.sent + b.buffer == a.sent + a.buffer + x
    requires f.sent + f.buffer == b.sent + b.buffer + rest
    ensures f.sent + f.buffer == a.sent + a.buffer + (x + rest)
  {
  }

  /** Every frame the run writes is clean, and the stored total never decreases. */
  lemma {:induction false} LoopWrites(stocks: seq<string>, i: nat, a: Acc, env: Env)
    requires i <= |stocks| && a.tally.counter < PauseEvery && WritesClean(a.tally, env.keys)
    ensures var f := Loop(stocks, i, a, env);
      WritesClean(f.acc.tally, env.keys) && f.acc.tally.stored >= a.tally.stored
    decreases |stocks| - i
  {
    if i < |stocks| {
      match Step(a, stocks[i], i == |stocks| - 1, env)
      case None =>
      case Some(b) =>
        StepWrites(a, stocks[i], i == |stocks| - 1, env);
        LoopWrites(stocks, i + 1, b, env);
    }
  }

  /** `insert_new` only appends: every table's stored rows survive the loop as a prefix. */
  lemma {:induction false} LoopKeeps(stocks: seq<string>, i: nat, a: Acc, env: Env, n: string)
    requires i <= |stocks| && a.tally.counter < PauseEvery
    requires Writes(env.w) && n in a.state.tables
    ensures var s := Loop(stocks, i, a, env).acc.state;
      n in s.tables && a.state.tables[n].rows <= s.tables[n].rows
    decreases |stocks| - i
  {
    if i < |stocks| {
      match Step(a, stocks[i], i == |stocks| - 1, env)
      case None =>
      case Some(b) =>
        StepKeeps(a, stocks[i], i == |stocks| - 1, env, n);
        LoopKeeps(stocks, i + 1, b, env, n);
    }
  }

  lemma StepKeeps(a: Acc, code: string, last: bool, env: Env, n: string)
    requires a.tally.counter < PauseEvery && Writes(env.w) && n in a.state.tables
    requires Step(a, code, last, env).Some?
    ensures var s := Step(a, code, last, env).value.state;
      n in s.tables && a.state.tables[n].rows <= s.tables[n].rows
  {
    var t := Tick(a.tally);
    var buf := t.buffer + Fetched(code, env);
    if FlushDue(buf, last) {
      var combined := Combined(buf, env.keys);
      if combined != [] {
        WriterKeeps(env.w, a.state, TableName, combined, env.keys, Some("ann_date"), Some(env.entry), n);
      }
    }
  }

  // ---------------------------------------------------------------------------
  // The run (lines 106-192)
  // ---------------------------------------------------------------------------

  datatype Outcome =
    | InitTableTypeError   // `init_table` is called with one argument too many
    | StatQueryFails       // the `pledge_stat` query raises
    | NothingToUpdate
    | Processed(stocks: nat, stored: int, pauses: nat, crashed: bool)  // crashed: a store raised

  datatype Run = Run(outcome: Outcome, state: State)

  /**
   * `backfill_pledge_detail` on the state `s`, given the answer of the
   * `pledge_stat` query (None when it raises).
   */
  function Backfill(s: State, stat: Option<seq<StatRow>>, mode: Mode, env: Env): (r: Run)
    ensures TableName !in s.tables ==> r == Run(InitTableTypeError, s)
    ensures r.outcome.Processed? || r.state == s
    ensures r.outcome == StatQueryFails <==> TableName in s.tables && stat.None?
  {
    if TableName !in s.tables then Run(InitTableTypeError, s)
    else if stat.None? then Run(StatQueryFails, s)
    else
      var stocks := Select(stat.value, s.tables[TableName].rows, mode).codes;
      if stocks == [] then Run(NothingToUpdate, s)
      else
        var s1 := if mode == Force then Purged(s, stocks) else s;
        var f := Loop(stocks, 0, Acc(s1, Start), env);
        Run(Processed(|stocks|, f.acc.tally.stored, f.acc.tally.pauses, f.raised), f.acc.state)
  }

  /** The stocks a run works on. */
  function Stocks(s: State, stat: seq<StatRow>, mode: Mode): seq<string>
    requires TableName in s.tables
  {
    Select(stat, s.tables[TableName].rows, mode).codes
  }

  /**
   * A run that did not crash pauses once per 350 stocks, reports a non-negative
   * total, writes only clean frames, and writes every non-empty answer of the
   * chosen stocks, in order.
   */
  lemma BackfillAccounts(s: State, stat: seq<StatRow>, mode: Mode, env: Env)
    requires TableName in s.tables
    ensures var r := Backfill(s, Some(stat), mode, env); var stocks := Stocks(s, stat, mode);
      && (r.outcome == NothingToUpdate <==> stocks == [])
      && (r.outcome.Processed? && !r.outcome.crashed ==>
            && r.outcome.stocks == |stocks|
            && r.outcome.pauses == |stocks| / PauseEvery
            && r.outcome.stored >= 0)
  {
    var stocks := Stocks(s, stat, mode);
    if stocks != [] {
      var s1 := if mode == Force then Purged(s, stocks) else s;
      LoopPaces(stocks, 0, Acc(s1, Start), env);
      LoopWrites(stocks, 0, Acc(s1, Start), env);
    }
  }

  /**
   * The loop of a run that did not crash hands the writer only clean frames,
   * and every non-empty answer of the chosen stocks leaves the buffer, in order.
   */
  lemma RunDelivers(stocks: seq<string>, s: State, env: Env)
    requires stocks != []
    ensures var f := Loop(stocks, 0, Acc(s, Start), env);
      !f.raised ==>
        && f.acc.tally.sent == AllFetched(stocks, env)
        && f.acc.tally.buffer == []
        && WritesClean(f.acc.tally, env.keys)
  {
    LoopDelivers(stocks, 0, Acc(s, Start), env);
    LoopWrites(stocks, 0, Acc(s, Start), env);
    assert stocks[0..] == stocks;
    var t := Loop(stocks, 0, Acc(s, Start), env).acc.tally;
    assert Start.sent + Start.buffer + AllFetched(stocks, env) == AllFetched(stocks, env);
    assert t.sent + [] == t.sent;
  }

  /**
   * Outside force mode every stored row survives the run; in force mode every
   * stored row of a stock that was not chosen survives.
   */
  lemma BackfillKeeps(s: State, stat: Option<seq<StatRow>>, mode: Mode, env: Env, r: Row)
    requires Writes(env.w) && TableName in s.tables && r in s.tables[TableName].rows
    requires mode == Force && stat.Some? ==> !InCodes(r, Stocks(s, stat.value, mode))
    ensures var t := Backfill(s, stat, mode, env).state.tables; TableName in t && r in t[TableName].rows
  {
    if stat.Some? {
      var stocks := Stocks(s, stat.value, mode);
      if stocks != [] {
        var s1 := if mode == Force then Purged(s, stocks) else s;
        LoopKeeps(stocks, 0, Acc(s1, Start), env, TableName);
        assert r in s1.tables[TableName].rows;
      }
    }
  }

  // ---------------------------------------------------------------------------
  // The run on the database
  // ---------------------------------------------------------------------------

  /** The write of a flush: `store_data` with `insert_new` on the combined frame. */
  method StoreCombined(db: Database, combined: Frame, env: Env) returns (r: StoreResult)
    requires Writes(env.w)
    modifies db
    ensures Stored(State(db.tables, db.meta), r)
         == env.w(State(old(db.tables), old(db.meta)), TableName, combined, env.keys, Some("ann_date"), "insert_new",
                  None, None, None, Some(env.entry))
    ensures r.Raised? ==> db.tables == old(db.tables) && db.meta == old(db.meta)
  {
    r := StoreData(db, TableName, combined, env.keys, Some("ann_date"), "insert_new", None, None, None, Some(env.entry));
  }

  /** A flush on the database: the state and tally `Flush` gives, nothing changed when the store raises. */
  method FlushBuffer(db: Database, t: Tally, env: Env) returns (ok: bool, t': Tally)
    requires Writes(env.w)
    modifies db
    ensures var r := Flush(Acc(State(old(db.tables), old(db.meta)), t), env);
      && (ok <==> r.Some?)
      && (ok ==> r.value == Acc(State(db.tables, db.meta), t'))
      && (!ok ==> t' == t && db.tables == old(db.tables) && db.meta == old(db.meta))
  {
    var combined := Combined(t.buffer, env.keys);
    var u := t.(buffer := [], sent := t.sent + t.buffer);
    if combined == [] {
      return true, u;
    }
    var r := StoreCombined(db, combined, env);
    if r.Raised? {
      return false, t;
    }
    ok, t' := true, u.(stored := t.stored + Added(r.code), written := t.written + [combined]);
  }

  /** One stock on the database, proved against `Step`. */
  method StepStock(db: Database, code: string, last: bool, env: Env, t: Tally) returns (ok: bool, t': Tally)
    requires Writes(env.w) && t.counter < PauseEvery
    modifies db
    ensures var r := Step(Acc(State(old(db.tables), old(db.meta)), t), code, last, env);
      && (ok <==> r.Some?)
      && (ok ==> r.value == Acc(State(db.tables, db.meta), t'))
      && (!ok ==> t' == t && db.tables == old(db.tables) && db.meta == old(db.meta))
  {
    var u := Tick(t);
    var df := FetchDetailForStock(env.apiOf(code), env.limit);
    if df != [] {
      u := u.(buffer := u.buffer + [df]);
    } else {
      assert u.buffer + [] == u.buffer;
    }
    if FlushDue(u.buffer, last) {
      ok, t' := FlushBuffer(db, u, env);
      if !ok {
        t' := t;
      }
    } else {
      ok, t' := true, u;
    }
  }

  /** The loop over the chosen stocks (lines 151-192), proved against `Loop`. */
  method ProcessStocks(db: Database, stocks: seq<string>, env: Env) returns (t: Tally, crashed: bool)
    requires Writes(env.w)
    modifies db
    ensures var f := Loop(stocks, 0, Acc(State(old(db.tables), old(db.meta)), Start), env);
      Acc(State(db.tables, db.meta), t) == f.acc && crashed == f.raised
  {
    ghost var goal := Loop(stocks, 0, Acc(State(db.tables, db.meta), Start), env);
    t := Start;
    var i := 0;
    while i < |stocks|
      invariant 0 <= i <= |stocks| && t.counter < PauseEvery
      invariant goal == Loop(stocks, i, Acc(State(db.tables, db.meta), t), env)
      decreases |stocks| - i
    {
      var ok;
      ok, t := StepStock(db, stocks[i], i == |stocks| - 1, env, t);
      if !ok {
        return t, true;
      }
      i := i + 1;
    }
    crashed := false;
  }

  /** `backfill_pledge_detail` on the database, as written. */
  method BackfillPledgeDetail(db: Database, stat: Option<seq<StatRow>>, mode: Mode, env: Env) returns (o: Outcome)
    requires Writes(env.w)
    modifies db
    ensures Run(o, State(db.tables, db.meta)) == Backfill(State(old(db.tables), old(db.meta)), stat, mode, env)
  {
    if TableName !in db.tables {
      return InitTableTypeError;
    }
    if stat.None? {
      return StatQueryFails;
    }
    var sel := Select(stat.value, db.tables[TableName].rows, mode);
    if sel.codes == [] {
      return NothingToUpdate;
    }
    if mode == Force {
      Purge(db, sel.codes);
    }
    var t, crashed := ProcessStocks(db, sel.codes, env);
    o := Processed(|sel.codes|, t.stored, t.pauses, crashed);
  }
}
