/**
 * The self-contained helpers of interactive_finance_update.py, the menu
 * driven refresh of the quarterly finance tables: the report-period
 * generator, the period check, the retrying pager `pagenation_vip` and the
 * frame clean-up `clean_finance_df`, plus the quarter filtering and the
 * overwrite window of `interactive_update`.
 *
 * The store call of `interactive_update` goes to a module that is not part
 * of this model. The API is the `Remote` oracle (`pro.query` at an offset
 * and attempt raises or serves a slice); sleeps are recorded in seconds.
 */
module InteractiveFinance {
  import opened Common
  import opened Calendar
  import opened Db
  import opened Remote
  import Utils
  import Storage

  // ---------------------------------------------------------------------------
  // generate_quarters (lines 185-209)
  // ---------------------------------------------------------------------------

  /** The first of January of the next year, keeping the day (`current.replace(year=+1, month=1)`). */
  function NewYear(d: Ymd): (r: Ymd)
    requires Valid(d)
    ensures Valid(r) && Before(d, r)
  {
    Ymd(d.year + 1, 1, d.day)
  }

  /**
   * The quarter ends the loop collects from `cur` on. A day in October to
   * December jumps to January of the next year before its quarter end is
   * looked at.
   */
  function FinQuarters(cur: Ymd, e: Ymd): seq<string>
    requires Valid(cur) && cur.year >= 1 && InRange(e)
    decreases e.year - cur.year, 12 - cur.month, 31 - cur.day
  {
    if Before(e, cur) then []
    else if cur.month > 9 then FinQuarters(NewYear(cur), e)
    else
      var q := Utils.QuarterEnd(cur);
      (if NotAfter(cur, q) && NotAfter(q, e) then [Format(q)] else []) + FinQuarters(Next(q), e)
  }

  /** `generate_quarters`; None when a bound does not parse (`strptime` raises). */
  function Quarters(start: string, end: string): Option<seq<string>> {
    match (Parse(start), Parse(end))
    case (Some(s), Some(e)) => Some(FinQuarters(s, e))
    case _ => None
  }

  method GenerateQuarters(start: string, end: string) returns (quarters: Option<seq<string>>)
    ensures quarters == Quarters(start, end)
  {
    var s := Parse(start);
    var e := Parse(end);
    if s.None? || e.None? {
      return None;
    }
    var found: seq<string> := [];
    var current := s.value;
    while !Before(e.value, current)
      invariant Valid(current) && current.year >= 1
      invariant FinQuarters(s.value, e.value) == found + FinQuarters(current, e.value)
      decreases e.value.year - current.year, 12 - current.month, 31 - current.day
    {
      if current.month > 9 {
        current := NewYear(current);
        continue;
      }
      var q := Utils.QuarterEnd(current);
      var add := if NotAfter(current, q) && NotAfter(q, e.value) then [Format(q)] else [];
      assert found + FinQuarters(current, e.value) == (found + add) + FinQuarters(Next(q), e.value);
      found := found + add;
      current := Next(q);
    }
    assert found + [] == found;
    return Some(found);
  }

  /** The period ends the generator can produce: 31 March, 30 June, 30 September. */
  predicate FinQuarterEnd(d: Ymd) {
    Utils.IsQuarterEnd(d) && d.month != 12
  }

  /** The list holds exactly the March, June and September quarter ends from `cur` to `e`. */
  lemma FinQuartersMembers(cur: Ymd, e: Ymd, x: string)
    requires Valid(cur) && cur.year >= 1 && InRange(e)
    ensures x in FinQuarters(cur, e) <==>
      IsDateString(x) && FinQuarterEnd(Parse(x).value) && NotAfter(cur, Parse(x).value) && NotAfter(Parse(x).value, e)
  {
    if x in FinQuarters(cur, e) {
      FinQuartersSound(cur, e, x);
    }
    if IsDateString(x) && FinQuarterEnd(Parse(x).value) && NotAfter(cur, Parse(x).value) && NotAfter(Parse(x).value, e) {
      FinQuartersComplete(cur, e, Parse(x).value);
      FormatParse(x);
    }
  }

  lemma {:induction false} FinQuartersSound(cur: Ymd, e: Ymd, x: string)
    requires Valid(cur) && cur.year >= 1 && InRange(e)
    requires x in FinQuarters(cur, e)
    ensures IsDateString(x) && FinQuarterEnd(Parse(x).value) && NotAfter(cur, Parse(x).value) && NotAfter(Parse(x).value, e)
    decreases e.year - cur.year, 12 - cur.month, 31 - cur.day
  {
    if cur.month > 9 {
      var j := NewYear(cur);
      FinQuartersSound(j, e, x);
      if j != Parse(x).value {
        BeforeTrans(cur, j, Parse(x).value);
      }
    } else {
      var q := Utils.QuarterEnd(cur);
      if NotAfter(cur, q) && NotAfter(q, e) && x == Format(q) {
        ParseFormat(q);
      } else {
        assert x in FinQuarters(Next(q), e);
        FinQuartersSound(Next(q), e, x);
        var y := Parse(x).value;
        assert NotAfter(cur, y) by {
          if cur != q { BeforeTrans(cur, q, Next(q)); }
          if Next(q) != y { BeforeTrans(cur, Next(q), y); }
        }
      }
    }
  }

  lemma {:induction false} FinQuartersComplete(cur: Ymd, e: Ymd, y: Ymd)
    requires Valid(cur) && cur.year >= 1 && InRange(e)
    requires InRange(y) && FinQuarterEnd(y) && NotAfter(cur, y) && NotAfter(y, e)
    ensures Format(y) in FinQuarters(cur, e)
    decreases e.year - cur.year, 12 - cur.month, 31 - cur.day
  {
    if cur.month > 9 {
      FinQuartersComplete(NewYear(cur), e, y);
    } else {
      var q := Utils.QuarterEnd(cur);
      Utils.QuarterEndFirst(cur, y);
      if y != q {
        NextIsSuccessor(q, y);
        FinQuartersComplete(Next(q), e, y);
      }
    }
  }

  lemma {:induction false} FinQuartersAscending(cur: Ymd, e: Ymd)
    requires Valid(cur) && cur.year >= 1 && InRange(e)
    ensures StrictlyAscending(FinQuarters(cur, e))
    decreases e.year - cur.year, 12 - cur.month, 31 - cur.day
  {
    if Before(e, cur) {
    } else if cur.month > 9 {
      FinQuartersAscending(NewYear(cur), e);
    } else {
      var q := Utils.QuarterEnd(cur);
      var rest := FinQuarters(Next(q), e);
      FinQuartersAscending(Next(q), e);
      if NotAfter(cur, q) && NotAfter(q, e) {
        assert FinQuarters(cur, e) == [Format(q)] + rest;
        forall j | 0 <= j < |rest| ensures StrLt(Format(q), rest[j]) {
          assert rest[j] in rest;
          FinQuartersMembers(Next(q), e, rest[j]);
          Utils.FormatBelow(q, rest[j]);
        }
        Utils.ConsAscending(Format(q), rest);
      } else {
        assert FinQuarters(cur, e) == rest;
      }
    }
  }

  /**
   * `generate_quarters` on two well-formed dates: exactly the 0331, 0630 and
   * 0930 dates in [start, end], ascending; a December quarter end is never
   * produced. A malformed bound raises.
   */
  lemma QuartersExact(start: string, end: string, x: string)
    ensures Quarters(start, end).None? <==> !IsDateString(start) || !IsDateString(end)
    ensures Quarters(start, end).Some? ==>
      var r := Quarters(start, end).value;
      && (x in r <==> IsDateString(x) && FinQuarterEnd(Parse(x).value)
                      && NotAfter(Parse(start).value, Parse(x).value) && NotAfter(Parse(x).value, Parse(end).value))
      && StrictlyAscending(r)
  {
    if IsDateString(start) && IsDateString(end) {
      FinQuartersMembers(Parse(start).value, Parse(end).value, x);
      FinQuartersAscending(Parse(start).value, Parse(end).value);
    }
  }

  // ---------------------------------------------------------------------------
  // is_valid_period (lines 211-214) and the filter of lines 501-504
  // ---------------------------------------------------------------------------

  const PeriodSuffixes: seq<string> := ["0331", "0630", "0930", "1231"]

  /** `date_str[4:] in [...]`: a string shorter than 4 has the empty suffix, which is not listed. */
  predicate IsValidPeriod(s: string) {
    |s| >= 4 && s[4..] in PeriodSuffixes
  }

  /** On a formatted day the check holds exactly at the four quarter ends. */
  lemma ValidPeriodOfDay(d: Ymd)
    requires InRange(d)
    ensures IsValidPeriod(Format(d)) <==> Utils.IsQuarterEnd(d)
  {
    var s := Format(d);
    ParseFormat(d);
    assert s[4..] == s[4..6] + s[6..];
    assert d.month == DigitsValue(s[4..6]) && d.day == DigitsValue(s[6..]);
    if Utils.IsQuarterEnd(d) {
      QuarterEndSuffix(d.month, d.day, s[4..6], s[6..]);
    }
    if IsValidPeriod(s) {
      SuffixValues(s[4..6], s[6..]);
    }
  }

  /** The value of two decimal digits. */
  lemma TwoDigits(m: string)
    requires |m| == 2 && AllDigits(m)
    ensures DigitsValue(m) == (m[0] as int - '0' as int) * 10 + (m[1] as int - '0' as int)
  {
    assert m[..1][..0] == [];
    assert m[..1][0] == m[0];
  }

  lemma QuarterEndSuffix(month: nat, day: nat, m: string, dd: string)
    requires (month == 3 && day == 31) || (month == 6 && day == 30) || (month == 9 && day == 30) || (month == 12 && day == 31)
    requires |m| == 2 && |dd| == 2 && AllDigits(m) && AllDigits(dd)
    requires DigitsValue(m) == month && DigitsValue(dd) == day
    ensures m + dd in PeriodSuffixes
  {
    TwoDigits(m);
    TwoDigits(dd);
    assert IsDigit(m[0]) && IsDigit(m[1]) && IsDigit(dd[0]) && IsDigit(dd[1]);
    var s := m + dd;
    assert s[0] == m[0] && s[1] == m[1] && s[2] == dd[0] && s[3] == dd[1];
    if month == 3 {
      assert s == "0331";
    } else if month == 6 {
      assert s == "0630";
    } else if month == 9 {
      assert s == "0930";
    } else {
      assert s == "1231";
    }
  }

  lemma SuffixValues(m: string, day: string)
    requires |m| == 2 && |day| == 2 && m + day in PeriodSuffixes
    ensures AllDigits(m) && AllDigits(day)
    ensures var md := (DigitsValue(m), DigitsValue(day));
      md == (3, 31) || md == (6, 30) || md == (9, 30) || md == (12, 31)
  {
    var s := m + day;
    assert m[0] == s[0] && m[1] == s[1] && day[0] == s[2] && day[1] == s[3];
    assert s == "0331" || s == "0630" || s == "0930" || s == "1231";
    assert IsDigit(s[0]) && IsDigit(s[1]) && IsDigit(s[2]) && IsDigit(s[3]);
    TwoDigits(m);
    TwoDigits(day);
  }

  /** The valid-period filter lets every generated quarter through unchanged. */
  lemma GeneratedPeriodsValid(start: string, end: string)
    requires Quarters(start, end).Some?
    ensures Filter(Quarters(start, end).value, IsValidPeriod) == Quarters(start, end).value
  {
    var r := Quarters(start, end).value;
    forall x | x in r ensures IsValidPeriod(x) {
      QuartersExact(start, end, x);
      FormatParse(x);
      ValidPeriodOfDay(Parse(x).value);
    }
    FilterAll(r, IsValidPeriod);
  }

  // ---------------------------------------------------------------------------
  // The store window of lines 520-526
  // ---------------------------------------------------------------------------

  /** `storage_mode`, `overwrite_start_date` and `overwrite_end_date` of the store call for quarter `q`. */
  function StoreWindow(q: string, overwrite: bool): (string, Option<string>, Option<string>) {
    if overwrite then ("replace", Some(q), Some(q)) else ("insert_new", None, None)
  }

  /** Overwriting quarter `q` deletes exactly the stored rows whose date column equals `q`. */
  lemma OverwriteWindow(q: string, r: Row, dateColumn: string)
    requires q != ""
    ensures var w := StoreWindow(q, true);
      w.0 == "replace" &&
      (Storage.InReplaceScope(r, dateColumn, w.1.value, w.2.value, None) <==> Get(r, dateColumn) == Some(q))
  {
    if Get(r, dateColumn) == Some(q) {
      StrLeRefl(q);
    }
    if Storage.InReplaceScope(r, dateColumn, q, q, None) {
      StrLeAntisym(q, Get(r, dateColumn).value);
    }
  }

  // ---------------------------------------------------------------------------
  // pagenation_vip (lines 216-237)
  // ---------------------------------------------------------------------------

  const Retries: nat := 3

  /** The attempts at one offset: the page, or None when all of them raised, and the waits in seconds. */
  datatype Tried = Tried(page: Option<Frame>, waits: seq<nat>)

  /** The `for attempt in range(retries)` loop from attempt `attempt` on. */
  function TryQuery(api: Api, offset: nat, limit: nat, attempt: nat): (t: Tried)
    decreases Retries - attempt
  {
    if attempt >= Retries then Tried(None, [])
    else if api.fault(offset, attempt).None? then Tried(Some(Slice(api, offset, limit)), [])
    else
      var rest := TryQuery(api, offset, limit, attempt + 1);
      Tried(rest.page, [5 * (attempt + 1)] + rest.waits)
  }

  /** The whole call: the rows (None for the RuntimeError), every wait, and the offsets queried. */
  datatype Paged = Paged(rows: Option<Frame>, waits: seq<nat>, offsets: seq<nat>)

  /** Collected rows, waits and offsets followed by what paging from there gives. */
  function Then(rows: Frame, waits: seq<nat>, offsets: seq<nat>, rest: Paged): Paged {
    Paged(if rest.rows.Some? then Some(rows + rest.rows.value) else None, waits + rest.waits, offsets + rest.offsets)
  }

  /** The `while True` loop from `offset`: stop at an empty or short page; an exhausted offset raises. */
  function Pages(api: Api, limit: nat, offset: nat): Paged
    decreases |api.data| - offset
  {
    var t := TryQuery(api, offset, limit, 0);
    match t.page
    case None => Paged(None, t.waits, [offset])
    case Some(p) =>
      if p == [] || |p| < limit then Paged(Some(p), t.waits, [offset])
      else Then(p, t.waits, [offset], Pages(api, limit, offset + |p|))
  }

  /** A failed attempt adds its wait in front of those of the attempts after it. */
  lemma RetryStep(api: Api, offset: nat, limit: nat, attempt: nat, waits: seq<nat>)
    requires attempt < Retries && api.fault(offset, attempt).Some?
    ensures TryQuery(api, offset, limit, attempt).page == TryQuery(api, offset, limit, attempt + 1).page
    ensures waits + TryQuery(api, offset, limit, attempt).waits
         == (waits + [5 * (attempt + 1)]) + TryQuery(api, offset, limit, attempt + 1).waits
  {
    var rest := TryQuery(api, offset, limit, attempt + 1).waits;
    assert waits + ([5 * (attempt + 1)] + rest) == (waits + [5 * (attempt + 1)]) + rest;
  }

  method QueryWithRetries(api: Api, offset: nat, limit: nat) returns (t: Tried)
    ensures t == TryQuery(api, offset, limit, 0)
  {
    var waits: seq<nat> := [];
    var attempt: nat := 0;
    while attempt < Retries
      invariant attempt <= Retries
      invariant TryQuery(api, offset, limit, 0) ==
        Tried(TryQuery(api, offset, limit, attempt).page, waits + TryQuery(api, offset, limit, attempt).waits)
    {
      if api.fault(offset, attempt).None? {
        return Tried(Some(Slice(api, offset, limit)), waits);
      }
      RetryStep(api, offset, limit, attempt, waits);
      waits := waits + [5 * (attempt + 1)];
      attempt := attempt + 1;
    }
    assert waits + [] == waits;
    return Tried(None, waits);
  }

  /** `Pages` with what the loop has already collected carried along. */
  function PagesAfter(api: Api, limit: nat, offset: nat, data: Frame, waits: seq<nat>, offsets: seq<nat>): Paged
    decreases |api.data| - offset
  {
    var t := TryQuery(api, offset, limit, 0);
    match t.page
    case None => Paged(None, waits + t.waits, offsets + [offset])
    case Some(p) =>
      if p == [] || |p| < limit then Paged(Some(data + p), waits + t.waits, offsets + [offset])
      else PagesAfter(api, limit, offset + |p|, data + p, waits + t.waits, offsets + [offset])
  }

  lemma {:induction false} PagesAfterIs(api: Api, limit: nat, offset: nat, data: Frame, waits: seq<nat>, offsets: seq<nat>)
    ensures PagesAfter(api, limit, offset, data, waits, offsets) == Then(data, waits, offsets, Pages(api, limit, offset))
    decreases |api.data| - offset
  {
    var t := TryQuery(api, offset, limit, 0);
    if t.page.Some? && t.page.value != [] && |t.page.value| >= limit {
      var p := t.page.value;
      PagesAfterIs(api, limit, offset + |p|, data + p, waits + t.waits, offsets + [offset]);
      PagesAfterStep(api, limit, offset, data, waits, offsets, t, p);
    }
  }

  lemma PagesAfterStep(api: Api, limit: nat, offset: nat, data: Frame, waits: seq<nat>, offsets: seq<nat>, t: Tried, p: Frame)
    requires t == TryQuery(api, offset, limit, 0) && t.page == Some(p) && p != [] && |p| >= limit
    requires PagesAfter(api, limit, offset + |p|, data + p, waits + t.waits, offsets + [offset])
          == Then(data + p, waits + t.waits, offsets + [offset], Pages(api, limit, offset + |p|))
    ensures PagesAfter(api, limit, offset, data, waits, offsets) == Then(data, waits, offsets, Pages(api, limit, offset))
  {
    ThenAssoc(data, waits, offsets, p, t.waits, offset, Pages(api, limit, offset + |p|));
  }

  /** One pass of the `while True` loop: query the offset, then stop or move on past the page. */
  method PageOnce(api: Api, limit: nat, offset: nat, data: Frame, waits: seq<nat>, offsets: seq<nat>)
    returns (stop: bool, rows: Option<Frame>, offset': nat, data': Frame, waits': seq<nat>, offsets': seq<nat>)
    ensures stop ==> Paged(rows, waits', offsets') == PagesAfter(api, limit, offset, data, waits, offsets)
    ensures !stop ==> (offset < offset' <= |api.data|
      && PagesAfter(api, limit, offset', data', waits', offsets') == PagesAfter(api, limit, offset, data, waits, offsets))
  {
    var t := QueryWithRetries(api, offset, limit);
    if t.page.None? {
      return true, None, offset, data, waits + t.waits, offsets + [offset];
    }
    var p := t.page.value;
    if p == [] || |p| < limit {
      return true, Some(data + p), offset, data, waits + t.waits, offsets + [offset];
    }
    return false, None, offset + |p|, data + p, waits + t.waits, offsets + [offset];
  }

  /** `pagenation_vip(api, period, limit, param)`: `rows` is None where it raises RuntimeError. */
  method PagenationVip(api: Api, limit: nat) returns (rows: Option<Frame>, waits: seq<nat>, offsets: seq<nat>)
    ensures Paged(rows, waits, offsets) == Pages(api, limit, 0)
  {
    var data: Frame := [];
    waits := [];
    offsets := [];
    var offset: nat := 0;
    ghost var goal := Pages(api, limit, 0);
    PagesAfterIs(api, limit, 0, [], [], []);
    ThenNothing(goal);
    while true
      invariant goal == PagesAfter(api, limit, offset, data, waits, offsets)
      decreases |api.data| - offset
    {
      var stop;
      stop, rows, offset, data, waits, offsets := PageOnce(api, limit, offset, data, waits, offsets);
      if stop {
        return;
      }
    }
  }

  lemma ThenNothing(rest: Paged)
    ensures Then([], [], [], rest) == rest
  {
    assert [] + rest.waits == rest.waits;
    assert [] + rest.offsets == rest.offsets;
    if rest.rows.Some? {
      assert [] + rest.rows.value == rest.rows.value;
    }
  }

  lemma ThenAssoc(data: Frame, waits: seq<nat>, offsets: seq<nat>, p: Frame, w: seq<nat>, o: nat, rest: Paged)
    ensures Then(data, waits, offsets, Then(p, w, [o], rest)) == Then(data + p, waits + w, offsets + [o], rest)
  {
    assert waits + (w + rest.waits) == (waits + w) + rest.waits;
    assert offsets + ([o] + rest.offsets) == (offsets + [o]) + rest.offsets;
    if rest.rows.Some? {
      assert data + (p + rest.rows.value) == (data + p) + rest.rows.value;
    }
  }

  /** Three failing attempts wait 5, 10 and 15 seconds and then raise. */
  lemma Exhausted(api: Api, offset: nat, limit: nat)
    requires forall a :: 0 <= a < Retries ==> api.fault(offset, a).Some?
    ensures TryQuery(api, offset, limit, 0) == Tried(None, [5, 10, 15])
  {
    assert api.fault(offset, 0).Some? && api.fault(offset, 1).Some? && api.fault(offset, 2).Some?;
  }

  /** Any attempt that succeeds serves the slice at the offset; the waits before it grow by 5 seconds each. */
  lemma {:induction false} TryQueryServes(api: Api, offset: nat, limit: nat, attempt: nat)
    requires attempt <= Retries
    ensures var t := TryQuery(api, offset, limit, attempt);
      && (t.page.Some? ==> t.page.value == Slice(api, offset, limit))
      && |t.waits| <= Retries - attempt
      && (forall i :: 0 <= i < |t.waits| ==> t.waits[i] == 5 * (attempt + i + 1))
    decreases Retries - attempt
  {
    if attempt < Retries && api.fault(offset, attempt).Some? {
      TryQueryServes(api, offset, limit, attempt + 1);
    }
  }

  /** `offset`, `offset + limit`, `offset + 2·limit` …, at least one of them. */
  predicate Spaced(offsets: seq<nat>, offset: nat, limit: nat) {
    |offsets| >= 1 && forall i :: 0 <= i < |offsets| ==> offsets[i] == offset + i * limit
  }

  lemma SpacedCons(rest: seq<nat>, offset: nat, limit: nat)
    requires Spaced(rest, offset + limit, limit)
    ensures Spaced([offset] + rest, offset, limit)
  {
    forall i | 0 <= i < |rest| + 1 ensures ([offset] + rest)[i] == offset + i * limit {
      if i > 0 {
        assert ([offset] + rest)[i] == rest[i - 1] == offset + limit + (i - 1) * limit;
      }
    }
  }

  /** The page at `offset` when it does not end the loop: a full one, and the offsets go on from `offset + limit`. */
  lemma FullPageStep(api: Api, limit: nat, offset: nat)
    requires var t := TryQuery(api, offset, limit, 0); t.page.Some? && t.page.value != [] && |t.page.value| >= limit
    ensures Pages(api, limit, offset).offsets == [offset] + Pages(api, limit, offset + limit).offsets
  {
    TryQueryServes(api, offset, limit, 0);
  }

  /**
   * The offsets requested are `offset`, `offset + limit`, `offset + 2·limit`
   * …: a page that does not end the loop is a full one, and the offset moves
   * on by the rows it returned.
   */
  lemma {:induction false} OffsetsStep(api: Api, limit: nat, offset: nat)
    ensures Spaced(Pages(api, limit, offset).offsets, offset, limit)
    decreases |api.data| - offset
  {
    var t := TryQuery(api, offset, limit, 0);
    if t.page.Some? && t.page.value != [] && |t.page.value| >= limit {
      TryQueryServes(api, offset, limit, 0);
      OffsetsStep(api, limit, offset + limit);
      FullPageStep(api, limit, offset);
      SpacedCons(Pages(api, limit, offset + limit).offsets, offset, limit);
    }
  }

  /** An API that never raises gives back its whole result set, and nothing is waited for. */
  lemma {:induction false} ReliablePages(api: Api, limit: nat, offset: nat)
    requires Reliable(api) && limit > 0 && offset <= |api.data|
    ensures Pages(api, limit, offset) == Paged(Some(api.data[offset..]), [], Pages(api, limit, offset).offsets)
    decreases |api.data| - offset
  {
    var p := Slice(api, offset, limit);
    assert api.fault(offset, 0).None?;
    assert TryQuery(api, offset, limit, 0) == Tried(Some(p), []);
    if p != [] && |p| >= limit {
      ReliablePages(api, limit, offset + |p|);
      SliceNext(api, offset, limit);
      var none: seq<nat> := [];
      assert none + none == none;
    } else {
      assert |p| < limit;
      assert Pages(api, limit, offset) == Paged(Some(p), [], [offset]);
      if offset < |api.data| {
        assert p == api.data[offset..Min(offset + limit, |api.data|)];
        assert Min(offset + limit, |api.data|) == |api.data|;
        assert p == api.data[offset..];
      } else {
        assert p == [];
      }
    }
  }

  // ---------------------------------------------------------------------------
  // clean_finance_df (lines 256-332)
  // ---------------------------------------------------------------------------

  const AnnDate := "ann_date"
  const FAnnDate := "f_ann_date"
  const EndDate := "end_date"
  const UpdateFlag := "update_flag"
  /** The announcement date given to rows that have neither a date nor an end_date column. */
  const Unannounced := "20990101"
  /** The columns kept by the field filter whatever the configured fields. */
  const Preserved: set<string> := {"ts_code", "end_date", "ann_date", "f_ann_date", "update_flag", "last_updated"}
  /** The grouping columns of the fina_mainbz versions. */
  const BizKeys: seq<string> := ["ts_code", "end_date", "bz_item", "bz_code"]

  /** Every row of the frame rewritten by `g`: a column-wise pandas assignment. */
  function MapRows(f: Frame, g: Row -> Row): (h: Frame)
    ensures |h| == |f| && forall i :: 0 <= i < |f| ==> h[i] == g(f[i])
  {
    seq(|f|, i requires 0 <= i < |f| => g(f[i]))
  }

  /** `col.strip().lower()`. */
  function ColumnName(c: string): string {
    Lower(Utils.Strip(c))
  }

  /** No two columns of a row get the same name (pandas would then hold two columns of one name). */
  predicate NamesDistinct(r: Row, name: string -> string) {
    forall a, b {:trigger name(a), name(b)} :: a in r && b in r && name(a) == name(b) ==> a == b
  }

  predicate CleanNamesDistinct(df: Frame) {
    forall i :: 0 <= i < |df| ==> NamesDistinct(df[i], ColumnName)
  }

  /** `df.columns = [...]` on one row: the same cells under the new names. */
  function RenameRow(r: Row, name: string -> string): (r': Row)
    requires NamesDistinct(r, name)
    ensures forall k :: k in r ==> name(k) in r' && r'[name(k)] == r[k]
    ensures forall c :: c in r' ==> exists k :: k in r && name(k) == c
  {
    map k | k in r :: name(k) := r[k]
  }

  function Renamed(df: Frame): (f: Frame)
    requires CleanNamesDistinct(df)
    ensures |f| == |df| && forall i :: 0 <= i < |df| ==> f[i] == RenameRow(df[i], ColumnName)
  {
    seq(|df|, i requires 0 <= i < |df| => RenameRow(df[i], ColumnName))
  }

  // The ann_date fills. Each is a mask over the rows; a column the frame lacks
  // reads as null in every row, which is why the per-row masks need no column test.

  predicate AnnBlank(r: Row) {
    Blank(Get(r, AnnDate))
  }

  predicate FAnnFillable(r: Row) {
    AnnBlank(r) && !Blank(Get(r, FAnnDate))
  }

  function FromFAnn(r: Row): Row {
    if FAnnFillable(r) then r[AnnDate := Get(r, FAnnDate)] else r
  }

  predicate EndFillable(r: Row) {
    AnnBlank(r) && !Blank(Get(r, EndDate))
  }

  function FromEnd(r: Row): Row {
    if EndFillable(r) then r[AnnDate := Get(r, EndDate)] else r
  }

  /** The last fill: the end_date cell when the frame has that column, else the far-future date. */
  function Fallback(r: Row, endColumn: bool): Row {
    if AnnBlank(r) then r[AnnDate := if endColumn then Get(r, EndDate) else Some(Unannounced)] else r
  }

  datatype Filled = Filled(rows: Frame, count: nat)

  /** Step 1: the three fills, in order, and the sum of the three mask counts. */
  function FillStep(f: Frame): (r: Filled)
    ensures |r.rows| == |f|
  {
    if AnnDate !in ColumnsOf(f) then Filled(f, 0)
    else
      var endColumn := EndDate in ColumnsOf(f);
      var f1 := MapRows(f, FromFAnn);
      var f2 := MapRows(f1, FromEnd);
      Filled(MapRows(f2, r => Fallback(r, endColumn)),
             |Filter(f, FAnnFillable)| + |Filter(f1, EndFillable)| + |Filter(f2, AnnBlank)|)
  }

  /** Step 2 on one row: keep the configured fields (lower-cased) and the preserved columns. */
  function KeepFields(r: Row, wanted: set<string>): (r': Row)
    ensures forall c :: c in r' <==> c in r && (c in wanted || c in Preserved)
    ensures forall c :: c in r' ==> r'[c] == r[c]
  {
    map c | c in r && (c in wanted || c in Preserved) :: r[c]
  }

  function FieldStep(f: Frame, fields: seq<string>): (g: Frame)
    ensures |g| == |f|
  {
    if fields == [] then f
    else
      var wanted := set i | 0 <= i < |fields| :: Lower(fields[i]);
      MapRows(f, r => KeepFields(r, wanted))
  }

  // Step 3: fina_mainbz versions. groupby drops rows with a null key; their
  // cumcount is NaN, and then the whole column is float, written "0.0", "1.0" ….

  /** A row with a null grouping key. */
  predicate KeyNull(r: Row) {
    !SqlKeyMatch(r, r, BizKeys)
  }

  /** Descending ann_date with nulls last: `a` sorts before `b`. */
  predicate AnnAhead(a: Value, b: Value) {
    a.Some? && (b.None? || StrLt(b.value, a.value))
  }

  /** Row `j` comes before row `i` in the (stable) sort order the versions are counted in. */
  predicate Precedes(f: Frame, byAnn: bool, j: nat, i: nat)
    requires j < |f| && i < |f|
  {
    if byAnn then
      var a, b := Get(f[j], AnnDate), Get(f[i], AnnDate);
      AnnAhead(a, b) || (a == b && j < i)
    else j < i
  }

  /** `groupby(biz_keys).cumcount()` at row `i`: the rows of its group sorted before it. */
  function Rank(f: Frame, byAnn: bool, i: nat): nat
    requires i < |f|
  {
    |set j | 0 <= j < |f| && SqlKeyMatch(f[j], f[i], BizKeys) && Precedes(f, byAnn, j, i)|
  }

  predicate HasNullKey(f: Frame) {
    exists i :: 0 <= i < |f| && KeyNull(f[i])
  }

  /** `.astype(str)` of the count. */
  function VersionText(f: Frame, byAnn: bool, i: nat): Value
    requires i < |f|
  {
    if KeyNull(f[i]) then Some("nan")
    else if HasNullKey(f) then Some(NatStr(Rank(f, byAnn, i)) + ".0")
    else Some(NatStr(Rank(f, byAnn, i)))
  }

  function Versions(f: Frame, byAnn: bool): (g: Frame)
    ensures |g| == |f|
    ensures forall i :: 0 <= i < |f| ==> g[i] == f[i][UpdateFlag := VersionText(f, byAnn, i)]
  {
    seq(|f|, i requires 0 <= i < |f| => f[i][UpdateFlag := VersionText(f, byAnn, i)])
  }

  function SetFlag(r: Row): Row {
    r[UpdateFlag := Some("0")]
  }

  /** `fillna('0')` on update_flag; a missing column reads as null in every row. */
  function DividendFlag(r: Row): Row {
    r[UpdateFlag := if Get(r, UpdateFlag).None? then Some("0") else Get(r, UpdateFlag)]
  }

  predicate HasBizKeys(f: Frame) {
    forall i :: 0 <= i < |BizKeys| ==> BizKeys[i] in ColumnsOf(f)
  }

  /** Steps 3 and 4. */
  function FlagStep(f: Frame, table: string): (g: Frame)
    ensures |g| == |f|
  {
    if table == "fina_mainbz" then
      if HasBizKeys(f) then Versions(f, AnnDate in ColumnsOf(f)) else MapRows(f, SetFlag)
    else if table == "dividend" then MapRows(f, DividendFlag)
    else f
  }

  /** `to_datetime(format='%Y%m%d', errors='coerce').dt.strftime('%Y%m%d')` on one cell. */
  function FormatCell(v: Value): Value {
    if v.Some? && Parse(v.value).Some? then Some(Format(Parse(v.value).value)) else None
  }

  function FormatColumn(r: Row, c: string): Row {
    if c in r then r[c := FormatCell(r[c])] else r
  }

  function FormatDates(r: Row): Row {
    FormatColumn(FormatColumn(FormatColumn(r, EndDate), AnnDate), FAnnDate)
  }

  predicate HasAnn(r: Row) {
    Get(r, AnnDate).Some?
  }

  /** Steps 5 and 6: format the date columns, then drop the rows whose ann_date is null. */
  function FinalStep(f: Frame): (g: Frame)
    ensures |g| <= |f|
  {
    var h := MapRows(f, FormatDates);
    if AnnDate in ColumnsOf(h) then Filter(h, HasAnn) else h
  }

  /** The frame after steps 1 and 2, which the flag step works on. */
  function Prepared(df: Frame, fields: seq<string>): (g: Frame)
    requires CleanNamesDistinct(df)
    ensures |g| == |df|
  {
    FieldStep(FillStep(Renamed(df)).rows, fields)
  }

  /** What `clean_finance_df` returns: the frame, the fill count, 0 and the row count. */
  datatype Cleaned = Cleaned(rows: Frame, filled: nat, removed: nat, kept: nat)

  function Clean(df: Frame, table: string, fields: seq<string>): (c: Cleaned)
    requires CleanNamesDistinct(df)
    ensures df == [] ==> c == Cleaned([], 0, 0, 0)
    ensures c.removed == 0 && c.kept == |c.rows| <= |df|
  {
    if df == [] then Cleaned(df, 0, 0, 0)
    else
      var rows := FinalStep(FlagStep(Prepared(df, fields), table));
      Cleaned(rows, FillStep(Renamed(df)).count, 0, |rows|)
  }

  /** `clean_finance_df(df, table_name, ...)` with the table's configured `fields`. */
  method CleanFinanceDf(df: Frame, table: string, fields: seq<string>)
    returns (out: Frame, filled: nat, removed: nat, final: nat)
    requires CleanNamesDistinct(df)
    ensures Cleaned(out, filled, removed, final) == Clean(df, table, fields)
  {
    if df == [] {
      return df, 0, 0, 0;
    }
    out := Renamed(df);
    var step1 := FillStep(out);
    out, filled := step1.rows, step1.count;
    out := FieldStep(out, fields);
    out := FlagStep(out, table);
    out := FinalStep(out);
    return out, filled, 0, |out|;
  }

  // ---------------------------------------------------------------------------
  // What the clean-up promises
  // ---------------------------------------------------------------------------

  lemma LowerSpace(c: char)
    ensures Utils.Space(LowerChar(c)) <==> Utils.Space(c)
  {
  }

  lemma LowerIdempotent(t: string)
    ensures Lower(Lower(t)) == Lower(t)
    ensures forall i :: 0 <= i < |t| ==> !('A' <= Lower(t)[i] <= 'Z')
  {
  }

  /** A cleaned column name has no surrounding whitespace and no capital letter, so cleaning it again changes nothing. */
  lemma ColumnNameIdempotent(c: string)
    ensures var n := ColumnName(c);
      (n == [] || (!Utils.Space(n[0]) && !Utils.Space(n[|n| - 1])))
      && (forall i :: 0 <= i < |n| ==> !('A' <= n[i] <= 'Z'))
      && ColumnName(n) == n
  {
    var t := Utils.Strip(c);
    var n := Lower(t);
    if n != [] {
      LowerSpace(t[0]);
      LowerSpace(t[|t| - 1]);
    }
    Utils.StripTrimmed(n);
    LowerIdempotent(t);
  }

  /** One row's masks: a row blank at the start is counted by exactly one of the three fills. */
  lemma FillCountRow(r: Row)
    ensures (if FAnnFillable(r) then 1 else 0) + (if EndFillable(FromFAnn(r)) then 1 else 0)
            + (if AnnBlank(FromEnd(FromFAnn(r))) then 1 else 0) == if AnnBlank(r) then 1 else 0
  {
  }

  lemma {:induction false} FillCountRows(f: Frame)
    ensures |Filter(f, FAnnFillable)| + |Filter(MapRows(f, FromFAnn), EndFillable)|
            + |Filter(MapRows(MapRows(f, FromFAnn), FromEnd), AnnBlank)| == |Filter(f, AnnBlank)|
    decreases |f|
  {
    if f != [] {
      FillCountRows(f[1..]);
      var f1 := MapRows(f, FromFAnn);
      assert f1[1..] == MapRows(f[1..], FromFAnn);
      assert MapRows(f1, FromEnd)[1..] == MapRows(MapRows(f[1..], FromFAnn), FromEnd);
      FillCountRow(f[0]);
    }
  }

  /** `ann_date_filled` counts every row whose ann_date was null or empty, once, even when the last fill leaves it blank. */
  lemma FillCounts(f: Frame)
    ensures FillStep(f).count == if AnnDate in ColumnsOf(f) then |Filter(f, AnnBlank)| else 0
  {
    if AnnDate in ColumnsOf(f) {
      FillCountRows(f);
    }
  }

  /**
   * The fills in one rule: ann_date is kept when present, else taken from
   * f_ann_date, else from end_date, else set to end_date's own blank value, or
   * to 20990101 when the frame has no end_date column. Nothing else changes.
   */
  lemma FillMeaning(f: Frame, i: nat)
    requires AnnDate in ColumnsOf(f) && i < |f|
    ensures var r, r' := f[i], FillStep(f).rows[i];
      && AnnDate in r'
      && Get(r', AnnDate) ==
           (if !Blank(Get(r, AnnDate)) then Get(r, AnnDate)
            else if !Blank(Get(r, FAnnDate)) then Get(r, FAnnDate)
            else if !Blank(Get(r, EndDate)) then Get(r, EndDate)
            else if EndDate in ColumnsOf(f) then Get(r, EndDate)
            else Some(Unannounced))
      && forall c :: c != AnnDate ==> Get(r', c) == Get(r, c)
  {
    var endColumn := EndDate in ColumnsOf(f);
    var f1 := MapRows(f, FromFAnn);
    var f2 := MapRows(f1, FromEnd);
    assert FillStep(f).rows[i] == Fallback(f2[i], endColumn);
  }

  /** A date cell after `to_datetime(..., errors='coerce').dt.strftime`: a real YYYYMMDD date is kept as it is, anything else is null. */
  lemma FormatCellMeaning(v: Value)
    ensures FormatCell(v) == if v.Some? && IsDateString(v.value) then v else None
  {
    if v.Some? && IsDateString(v.value) {
      FormatParse(v.value);
    }
  }

  lemma FormatDatesKeeps(r: Row)
    ensures FormatDates(r).Keys == r.Keys
    ensures forall c :: c != EndDate && c != AnnDate && c != FAnnDate ==> Get(FormatDates(r), c) == Get(r, c)
    ensures forall c :: c == EndDate || c == AnnDate || c == FAnnDate ==> Get(FormatDates(r), c) == FormatCell(Get(r, c)) || c !in r
  {
  }

  /** Every row the final step returns is a row of its input with the dates formatted. */
  lemma FinalStepFrom(f: Frame, x: Row)
    requires x in FinalStep(f)
    ensures exists i :: 0 <= i < |f| && x == FormatDates(f[i])
  {
    var h := MapRows(f, FormatDates);
    assert x in h;
    var i :| 0 <= i < |h| && h[i] == x;
  }

  /** The stages of the clean-up, named. */
  lemma CleanStages(df: Frame, table: string, fields: seq<string>)
    requires CleanNamesDistinct(df) && df != []
    ensures Clean(df, table, fields).rows == FinalStep(FlagStep(Prepared(df, fields), table))
  {
  }

  lemma FlagStepKeys(g: Frame, table: string, i: nat)
    requires i < |g|
    ensures g[i].Keys <= FlagStep(g, table)[i].Keys <= g[i].Keys + {UpdateFlag}
    ensures forall c :: c != UpdateFlag ==> Get(FlagStep(g, table)[i], c) == Get(g[i], c)
  {
  }

  lemma FieldStepKeys(f: Frame, fields: seq<string>, i: nat, c: string)
    requires i < |f| && fields != [] && c in FieldStep(f, fields)[i]
    ensures c in Preserved || exists k :: 0 <= k < |fields| && Lower(fields[k]) == c
  {
  }

  /** With fields configured, only the lower-cased fields and the preserved columns come out. */
  lemma FieldsKept(df: Frame, table: string, fields: seq<string>, x: Row, c: string)
    requires CleanNamesDistinct(df) && fields != []
    requires x in Clean(df, table, fields).rows && c in x
    ensures c in Preserved || exists i :: 0 <= i < |fields| && Lower(fields[i]) == c
  {
    CleanStages(df, table, fields);
    var g := Prepared(df, fields);
    var h := FlagStep(g, table);
    FinalStepFrom(h, x);
    var i :| 0 <= i < |h| && x == FormatDates(h[i]);
    FormatDatesKeeps(h[i]);
    FlagStepKeys(g, table, i);
    if c != UpdateFlag {
      FieldStepKeys(FillStep(Renamed(df)).rows, fields, i, c);
    }
  }

  /** An ann_date column in the input reaches the formatted frame: the fills give every row an ann_date cell. */
  lemma AnnColumnKept(df: Frame, table: string, fields: seq<string>)
    requires CleanNamesDistinct(df) && AnnDate in ColumnsOf(Renamed(df))
    ensures AnnDate in ColumnsOf(MapRows(FlagStep(Prepared(df, fields), table), FormatDates))
  {
    var f := Renamed(df);
    var g := Prepared(df, fields);
    var h := FlagStep(g, table);
    FillMeaning(f, 0);
    assert AnnDate in g[0];
    FlagStepKeys(g, table, 0);
    FormatDatesKeeps(h[0]);
    assert AnnDate in MapRows(h, FormatDates)[0];
  }

  /** Without an ann_date column nothing adds one, so nothing is dropped. */
  lemma NoAnnColumn(df: Frame, table: string, fields: seq<string>)
    requires CleanNamesDistinct(df) && AnnDate !in ColumnsOf(Renamed(df))
    ensures AnnDate !in ColumnsOf(MapRows(FlagStep(Prepared(df, fields), table), FormatDates))
  {
    var f := Renamed(df);
    var g := Prepared(df, fields);
    var h := FlagStep(g, table);
    var m := MapRows(h, FormatDates);
    forall i | 0 <= i < |m| ensures AnnDate !in m[i] {
      assert AnnDate !in f[i];
      FlagStepKeys(g, table, i);
      FormatDatesKeeps(h[i]);
    }
  }

  lemma AnnDatesCore(h: Frame, x: Row)
    requires AnnDate in ColumnsOf(MapRows(h, FormatDates)) && x in FinalStep(h)
    ensures Get(x, AnnDate).Some? && IsDateString(Get(x, AnnDate).value)
  {
    FinalStepFrom(h, x);
    var i :| 0 <= i < |h| && x == FormatDates(h[i]);
    FormatDatesKeeps(h[i]);
    FormatCellMeaning(Get(h[i], AnnDate));
  }

  /**
   * When the frame has an ann_date column, every row returned has a real
   * YYYYMMDD ann_date; without one no row is dropped.
   */
  lemma AnnDatesFinal(df: Frame, table: string, fields: seq<string>)
    requires CleanNamesDistinct(df)
    ensures var out := Clean(df, table, fields).rows;
      && (AnnDate in ColumnsOf(Renamed(df)) ==>
            forall x :: x in out ==> Get(x, AnnDate).Some? && IsDateString(Get(x, AnnDate).value))
      && (AnnDate !in ColumnsOf(Renamed(df)) ==> |out| == |df|)
  {
    if df != [] {
      CleanStages(df, table, fields);
      var h := FlagStep(Prepared(df, fields), table);
      if AnnDate in ColumnsOf(Renamed(df)) {
        AnnColumnKept(df, table, fields);
        forall x | x in FinalStep(h) ensures Get(x, AnnDate).Some? && IsDateString(Get(x, AnnDate).value) {
          AnnDatesCore(h, x);
        }
      } else {
        NoAnnColumn(df, table, fields);
      }
    }
  }

  lemma PrecedesTrans(f: Frame, byAnn: bool, k: nat, j: nat, i: nat)
    requires k < |f| && j < |f| && i < |f|
    requires Precedes(f, byAnn, k, j) && Precedes(f, byAnn, j, i)
    ensures Precedes(f, byAnn, k, i)
  {
    if byAnn {
      var a, b, c := Get(f[k], AnnDate), Get(f[j], AnnDate), Get(f[i], AnnDate);
      if AnnAhead(a, b) && AnnAhead(b, c) && c.Some? {
        StrLtTrans(c.value, b.value, a.value);
      }
    }
  }

  lemma PrecedesTotal(f: Frame, byAnn: bool, j: nat, i: nat)
    requires j < |f| && i < |f| && j != i
    ensures Precedes(f, byAnn, j, i) || Precedes(f, byAnn, i, j)
  {
    if byAnn {
      var a, b := Get(f[j], AnnDate), Get(f[i], AnnDate);
      if a.Some? && b.Some? && a != b {
        StrLeTotal(a.value, b.value);
      }
    }
  }

  lemma NotPrecedesSelf(f: Frame, byAnn: bool, i: nat)
    requires i < |f|
    ensures !Precedes(f, byAnn, i, i)
  {
    var a := Get(f[i], AnnDate);
    assert a.Some? ==> !StrLt(a.value, a.value);
  }

  /** A row sorted before another of its group has a smaller count. */
  lemma RankBelow(f: Frame, byAnn: bool, j: nat, i: nat)
    requires j < |f| && i < |f|
    requires SqlKeyMatch(f[j], f[i], BizKeys) && Precedes(f, byAnn, j, i)
    ensures Rank(f, byAnn, j) < Rank(f, byAnn, i)
  {
    var sj := set k | 0 <= k < |f| && SqlKeyMatch(f[k], f[j], BizKeys) && Precedes(f, byAnn, k, j);
    var si := set k | 0 <= k < |f| && SqlKeyMatch(f[k], f[i], BizKeys) && Precedes(f, byAnn, k, i);
    forall k | k in sj ensures k in si {
      PrecedesTrans(f, byAnn, k, j, i);
    }
    NotPrecedesSelf(f, byAnn, j);
    assert j in si - sj;
    assert si == sj + (si - sj);
    assert sj * (si - sj) == {};
  }

  lemma NatStrInjective(a: nat, b: nat, suffix: string)
    requires NatStr(a) + suffix == NatStr(b) + suffix
    ensures a == b
  {
    var x, y := NatStr(a) + suffix, NatStr(b) + suffix;
    assert NatStr(a) == x[..|x| - |suffix|];
    assert NatStr(b) == y[..|y| - |suffix|];
    NatStrValue(a);
    NatStrValue(b);
  }

  /** Two different rows of one (ts_code, end_date, bz_item, bz_code) group get different versions. */
  lemma VersionsDistinct(f: Frame, byAnn: bool, i: nat, j: nat)
    requires i < |f| && j < |f| && i != j
    requires SqlKeyMatch(f[i], f[j], BizKeys)
    ensures VersionText(f, byAnn, i) != VersionText(f, byAnn, j)
  {
    assert !KeyNull(f[i]) && !KeyNull(f[j]);
    PrecedesTotal(f, byAnn, j, i);
    if Precedes(f, byAnn, j, i) {
      RankBelow(f, byAnn, j, i);
    } else {
      RankBelow(f, byAnn, i, j);
    }
    var suffix := if HasNullKey(f) then ".0" else "";
    if NatStr(Rank(f, byAnn, i)) + suffix == NatStr(Rank(f, byAnn, j)) + suffix {
      NatStrInjective(Rank(f, byAnn, i), Rank(f, byAnn, j), suffix);
    }
  }

  /** Formatting leaves a complete key as it was: a formatted end_date that is not null was already a date. */
  lemma FormatKeyMatch(a: Row, b: Row)
    requires SqlKeyMatch(FormatDates(a), FormatDates(b), BizKeys)
    ensures SqlKeyMatch(a, b, BizKeys)
    ensures Get(FormatDates(a), UpdateFlag) == Get(a, UpdateFlag)
    ensures Get(FormatDates(b), UpdateFlag) == Get(b, UpdateFlag)
  {
    FormatDatesKeeps(a);
    FormatDatesKeeps(b);
    assert BizKeys[1] == EndDate;
    FormatCellMeaning(Get(a, EndDate));
    FormatCellMeaning(Get(b, EndDate));
    forall m | 0 <= m < |BizKeys| ensures Get(a, BizKeys[m]).Some? && Get(a, BizKeys[m]) == Get(b, BizKeys[m]) {
      assert Get(FormatDates(a), BizKeys[m]).Some?;
    }
  }

  /** A row out of the flag step with a complete key means the frame had all four key columns. */
  lemma KeysPresent(g: Frame, table: string, i: nat)
    requires i < |g| && SqlKeyMatch(FlagStep(g, table)[i], FlagStep(g, table)[i], BizKeys)
    ensures HasBizKeys(g)
  {
    FlagStepKeys(g, table, i);
    forall m | 0 <= m < |BizKeys| ensures BizKeys[m] in ColumnsOf(g) {
      assert BizKeys[m] in g[i];
    }
  }

  /** A returned row with a complete key means the frame had all four key columns. */
  lemma KeysPresentOut(g: Frame, table: string, x: Row)
    requires x in FinalStep(FlagStep(g, table)) && SqlKeyMatch(x, x, BizKeys)
    ensures HasBizKeys(g)
  {
    var h := FlagStep(g, table);
    FinalStepFrom(h, x);
    var i :| 0 <= i < |h| && x == FormatDates(h[i]);
    FormatDatesKeeps(h[i]);
    KeysPresent(g, table, i);
  }

  lemma VersionsUniqueCore(g: Frame, byAnn: bool, h: Frame, x: Row, y: Row)
    requires h == Versions(g, byAnn)
    requires x in FinalStep(h) && y in FinalStep(h)
    requires SqlKeyMatch(x, y, BizKeys) && Get(x, UpdateFlag) == Get(y, UpdateFlag)
    ensures x == y
  {
    FinalStepFrom(h, x);
    FinalStepFrom(h, y);
    var i :| 0 <= i < |h| && x == FormatDates(h[i]);
    var j :| 0 <= j < |h| && y == FormatDates(h[j]);
    FormatKeyMatch(h[i], h[j]);
    VersionPair(g, byAnn, h, i, j);
  }

  lemma VersionsUnique(g: Frame, x: Row, y: Row)
    requires x in FinalStep(FlagStep(g, "fina_mainbz")) && y in FinalStep(FlagStep(g, "fina_mainbz"))
    requires SqlKeyMatch(x, y, BizKeys) && Get(x, UpdateFlag) == Get(y, UpdateFlag)
    ensures x == y
  {
    assert SqlKeyMatch(x, x, BizKeys);
    KeysPresentOut(g, "fina_mainbz", x);
    MainbzStep(g);
    VersionsUniqueCore(g, AnnDate in ColumnsOf(g), FlagStep(g, "fina_mainbz"), x, y);
  }

  lemma MainbzStep(g: Frame)
    requires HasBizKeys(g)
    ensures FlagStep(g, "fina_mainbz") == Versions(g, AnnDate in ColumnsOf(g))
  {
  }

  lemma VersionPair(g: Frame, byAnn: bool, h: Frame, i: nat, j: nat)
    requires h == Versions(g, byAnn) && i < |g| && j < |g|
    requires SqlKeyMatch(h[i], h[j], BizKeys) && Get(h[i], UpdateFlag) == Get(h[j], UpdateFlag)
    ensures i == j
  {
    forall m | 0 <= m < |BizKeys| ensures Get(g[i], BizKeys[m]) == Get(h[i], BizKeys[m]) && Get(g[j], BizKeys[m]) == Get(h[j], BizKeys[m]) {
    }
    if i != j {
      VersionsDistinct(g, byAnn, i, j);
    }
  }

  /**
   * fina_mainbz: no two rows returned agree on all four (non-null) key
   * columns and on update_flag, so the versions keep the stored key unique.
   */
  lemma MainbzUnique(df: Frame, fields: seq<string>, x: Row, y: Row)
    requires CleanNamesDistinct(df)
    requires x in Clean(df, "fina_mainbz", fields).rows && y in Clean(df, "fina_mainbz", fields).rows
    requires SqlKeyMatch(x, y, BizKeys) && Get(x, UpdateFlag) == Get(y, UpdateFlag)
    ensures x == y
  {
    CleanStages(df, "fina_mainbz", fields);
    VersionsUnique(Prepared(df, fields), x, y);
  }

  /** fina_mainbz without all four key columns: every row is version "0". */
  lemma MainbzDefault(df: Frame, fields: seq<string>, x: Row)
    requires CleanNamesDistinct(df) && !HasBizKeys(Prepared(df, fields))
    requires x in Clean(df, "fina_mainbz", fields).rows
    ensures Get(x, UpdateFlag) == Some("0")
  {
    CleanStages(df, "fina_mainbz", fields);
    var h := FlagStep(Prepared(df, fields), "fina_mainbz");
    FinalStepFrom(h, x);
    var i :| 0 <= i < |h| && x == FormatDates(h[i]);
    FormatDatesKeeps(h[i]);
  }

  lemma DividendCore(g: Frame, x: Row)
    requires x in FinalStep(FlagStep(g, "dividend"))
    ensures Get(x, UpdateFlag).Some?
    ensures exists i :: 0 <= i < |g| && Get(x, UpdateFlag) == DividendFlag(g[i])[UpdateFlag]
  {
    var h := FlagStep(g, "dividend");
    FinalStepFrom(h, x);
    var i :| 0 <= i < |h| && x == FormatDates(h[i]);
    FormatDatesKeeps(h[i]);
  }

  /** dividend: every row returned has an update_flag; a missing one became "0", a present one is kept. */
  lemma DividendFlags(df: Frame, fields: seq<string>, x: Row)
    requires CleanNamesDistinct(df)
    requires x in Clean(df, "dividend", fields).rows
    ensures Get(x, UpdateFlag).Some?
    ensures exists r :: r in Prepared(df, fields) && Get(x, UpdateFlag) == DividendFlag(r)[UpdateFlag]
  {
    CleanStages(df, "dividend", fields);
    var g := Prepared(df, fields);
    DividendCore(g, x);
    var i :| 0 <= i < |g| && Get(x, UpdateFlag) == DividendFlag(g[i])[UpdateFlag];
    assert g[i] in g;
  }
}
