/**
 * The self-contained parts of interactive_stock_update.py, the menu-driven
 * refresh of the stock-information tables: the quarter windows of
 * stk_managers, the capped pager `pagenation_quarter`, the year the
 * stk_managers refresh resumes from, the stk_rewards code batches and the
 * menu choice.
 *
 * The API is the `Remote` oracle, queried once per offset (this pager does
 * not retry); today's date, which `datetime.now()` supplies, is a parameter.
 */
module InteractiveStock {
  import opened Common
  import opened Calendar
  import opened Remote
  import Utils

  /** Paging stops once the offset reaches this. */
  const MaxOffset: nat := 100000
  const LimitPerPage: nat := 4000
  const BatchSize: nat := 20
  /** The metadata date the stk_managers refresh falls back on. */
  const DefaultMaxDate := "20141231"
  /** The year used when the metadata date does not start with a number. */
  const DefaultYear: nat := 2015

  // ---------------------------------------------------------------------------
  // generate_quarters (lines 48-60)
  // ---------------------------------------------------------------------------

  /** 1 January, 1 April, 1 July or 1 October: where the loop's `current` always stands. */
  predicate QuarterStart(d: Ymd) {
    d.day == 1 && (d.month == 1 || d.month == 4 || d.month == 7 || d.month == 10)
  }

  /** `current + relativedelta(months=3)`. */
  function NextQuarter(cur: Ymd): (r: Ymd)
    requires QuarterStart(cur)
    ensures QuarterStart(r) && Before(cur, r)
  {
    if cur.month == 10 then Ymd(cur.year + 1, 1, 1) else Ymd(cur.year, cur.month + 3, 1)
  }

  /** `current + relativedelta(months=3, days=-1)`: the last day of the quarter. */
  function QuarterLast(cur: Ymd): (r: Ymd)
    requires QuarterStart(cur)
    ensures Valid(r) && Before(cur, r) && Next(r) == NextQuarter(cur)
  {
    Ymd(cur.year, cur.month + 2, DaysInMonth(cur.year, cur.month + 2))
  }

  /** One `(start, end)` pair of the list, as days. */
  datatype Window = Window(first: Ymd, last: Ymd)

  /** The windows from the quarter starting at `cur` on; the last one is clipped to `e`. */
  function Windows(cur: Ymd, e: Ymd): seq<Window>
    requires QuarterStart(cur)
    decreases e.year - cur.year, 12 - cur.month
  {
    if Before(e, cur) then []
    else
      var q := QuarterLast(cur);
      [Window(cur, if Before(e, q) then e else q)] + Windows(NextQuarter(cur), e)
  }

  /** Windows that tile the days from `cur` to `e`: consecutive, each inside its quarter, the last ending at `e`. */
  predicate Tiles(ws: seq<Window>, cur: Ymd, e: Ymd) {
    && (ws != [] ==> ws[0].first == cur && ws[|ws| - 1].last == e)
    && (forall i :: 0 <= i < |ws| ==>
          QuarterStart(ws[i].first) && NotAfter(ws[i].first, ws[i].last) && NotAfter(ws[i].last, e)
          && NotAfter(cur, ws[i].first) && Valid(ws[i].last))
    && (forall i :: 0 <= i < |ws| - 1 ==> Valid(ws[i].last) && Next(ws[i].last) == ws[i + 1].first)
  }

  /** A window list led by `w`, which is followed by windows tiling the days from the next quarter on. */
  lemma TilesCons(cur: Ymd, e: Ymd, w: Window, rest: seq<Window>)
    requires QuarterStart(cur) && Valid(e) && NotAfter(cur, e)
    requires w == Window(cur, if Before(e, QuarterLast(cur)) then e else QuarterLast(cur))
    requires Tiles(rest, NextQuarter(cur), e)
    requires rest != [] <==> NotAfter(NextQuarter(cur), e)
    ensures Tiles([w] + rest, cur, e)
  {
    var ws := [w] + rest;
    var q := QuarterLast(cur);
    if rest == [] {
      if Before(q, e) {
        NextIsSuccessor(q, e);
      }
    } else {
      assert !Before(e, q);
      assert Next(ws[0].last) == ws[1].first;
      forall i | 1 <= i < |ws| ensures NotAfter(cur, ws[i].first) {
        assert ws[i] == rest[i - 1];
        if NextQuarter(cur) != rest[i - 1].first {
          BeforeTrans(cur, NextQuarter(cur), rest[i - 1].first);
        }
      }
      forall i | 1 <= i < |ws| - 1 ensures Next(ws[i].last) == ws[i + 1].first {
        assert ws[i] == rest[i - 1] && ws[i + 1] == rest[i];
      }
    }
  }

  /**
   * The windows start at `cur`, follow one another without a gap or an
   * overlap (each starts the day after the previous one ends), stay inside
   * [cur, e] and end exactly at `e`; there are none when `e` is before `cur`.
   */
  lemma {:induction false} WindowsTile(cur: Ymd, e: Ymd)
    requires QuarterStart(cur) && Valid(e)
    ensures Tiles(Windows(cur, e), cur, e)
    ensures Windows(cur, e) != [] <==> NotAfter(cur, e)
    decreases e.year - cur.year, 12 - cur.month
  {
    if !Before(e, cur) {
      WindowsTile(NextQuarter(cur), e);
      var q := QuarterLast(cur);
      TilesCons(cur, e, Window(cur, if Before(e, q) then e else q), Windows(NextQuarter(cur), e));
    }
  }

  /** Every day from `cur` to `e` lies in exactly one window. */
  lemma {:induction false} WindowsCover(cur: Ymd, e: Ymd, d: Ymd)
    requires QuarterStart(cur) && Valid(e) && Valid(d) && NotAfter(cur, d) && NotAfter(d, e)
    ensures exists i :: 0 <= i < |Windows(cur, e)| && NotAfter(Windows(cur, e)[i].first, d) && NotAfter(d, Windows(cur, e)[i].last)
    ensures forall i, j :: 0 <= i < j < |Windows(cur, e)| ==> Before(Windows(cur, e)[i].last, Windows(cur, e)[j].first)
    decreases e.year - cur.year, 12 - cur.month
  {
    var ws := Windows(cur, e);
    var q := QuarterLast(cur);
    WindowsTile(cur, e);
    WindowsTile(NextQuarter(cur), e);
    var rest := Windows(NextQuarter(cur), e);
    assert ws == [ws[0]] + rest;
    if NotAfter(d, ws[0].last) {
      assert NotAfter(ws[0].first, d);
    } else {
      NextIsSuccessor(ws[0].last, d);
      WindowsCover(NextQuarter(cur), e, d);
      var k :| 0 <= k < |rest| && NotAfter(rest[k].first, d) && NotAfter(d, rest[k].last);
      assert ws[k + 1] == rest[k];
    }
    if NotAfter(NextQuarter(cur), e) {
      WindowsOrdered(cur, e);
    }
  }

  /** Later windows start after earlier ones end. */
  lemma {:induction false} WindowsOrdered(cur: Ymd, e: Ymd)
    requires QuarterStart(cur) && Valid(e)
    ensures forall i, j :: 0 <= i < j < |Windows(cur, e)| ==> Before(Windows(cur, e)[i].last, Windows(cur, e)[j].first)
    decreases e.year - cur.year, 12 - cur.month
  {
    if !Before(e, cur) {
      var ws := Windows(cur, e);
      var rest := Windows(NextQuarter(cur), e);
      WindowsOrdered(NextQuarter(cur), e);
      WindowsTile(NextQuarter(cur), e);
      assert ws == [ws[0]] + rest;
      forall i, j | 0 <= i < j < |ws| ensures Before(ws[i].last, ws[j].first) {
        assert ws[j] == rest[j - 1];
        if i == 0 {
          assert Next(QuarterLast(cur)) == NextQuarter(cur);
          if NextQuarter(cur) != rest[j - 1].first {
            BeforeTrans(ws[0].last, NextQuarter(cur), rest[j - 1].first);
          }
        } else {
          assert ws[i] == rest[i - 1];
        }
      }
    }
  }

  /** The first window of a non-empty list, within Python's years when the start and `e` are. */
  lemma WindowHead(cur: Ymd, e: Ymd, w: Window)
    requires QuarterStart(cur) && cur.year >= 1 && InRange(e) && NotAfter(cur, e)
    requires w == Window(cur, if Before(e, QuarterLast(cur)) then e else QuarterLast(cur))
    ensures Windows(cur, e) == [w] + Windows(NextQuarter(cur), e)
    ensures InRange(w.first) && InRange(w.last)
  {
  }

  /** The windows as the `(start, end)` strings of the source. */
  function Labels(ws: seq<Window>): (r: seq<(string, string)>)
    requires forall i :: 0 <= i < |ws| ==> InRange(ws[i].first) && InRange(ws[i].last)
    ensures |r| == |ws|
    ensures forall i :: 0 <= i < |ws| ==> r[i] == (Format(ws[i].first), Format(ws[i].last))
  {
    seq(|ws|, i requires 0 <= i < |ws| => (Format(ws[i].first), Format(ws[i].last)))
  }

  /** The windows of `generate_quarters(start_year, end_date)`; None where `datetime` or `strptime` raises. */
  function QuarterWindows(startYear: int, endDate: string): (r: Option<seq<Window>>)
    ensures r.Some? ==> forall i :: 0 <= i < |r.value| ==> InRange(r.value[i].first) && InRange(r.value[i].last)
  {
    if !(1 <= startYear <= 9999) || Parse(endDate).None? then None
    else
      var cur, e := Ymd(startYear, 1, 1), Parse(endDate).value;
      WindowsTile(cur, e);
      Some(Windows(cur, e))
  }

  /** One pass of the loop: the pair for the quarter at `current`, and the next quarter's start. */
  method QuarterStep(current: Ymd, e: Ymd) returns (pair: (string, string), ghost w: Window, next: Ymd)
    requires QuarterStart(current) && current.year >= 1 && InRange(e) && NotAfter(current, e)
    ensures InRange(w.first) && InRange(w.last) && pair == (Format(w.first), Format(w.last))
    ensures next == NextQuarter(current)
    ensures Windows(current, e) == [w] + Windows(next, e)
  {
    var qEnd := QuarterLast(current);
    if Before(e, qEnd) {
      qEnd := e;
    }
    w := Window(current, qEnd);
    WindowHead(current, e, w);
    pair := (Format(current), Format(qEnd));
    next := NextQuarter(current);
  }

  lemma Shift<T>(all: seq<T>, done: seq<T>, x: T, rest: seq<T>)
    requires all == done + ([x] + rest)
    ensures all == (done + [x]) + rest
  {
  }

  method GenerateQuarters(startYear: int, endDate: string) returns (quarters: Option<seq<(string, string)>>)
    ensures QuarterWindows(startYear, endDate).None? ==> quarters.None?
    ensures QuarterWindows(startYear, endDate).Some? ==> quarters == Some(Labels(QuarterWindows(startYear, endDate).value))
  {
    var end := Parse(endDate);
    if !(1 <= startYear <= 9999) || end.None? {
      return None;
    }
    var e := end.value;
    var current := Ymd(startYear, 1, 1);
    ghost var all := QuarterWindows(startYear, endDate).value;
    assert all == Windows(current, e);
    ghost var ws: seq<Window> := [];
    var out: seq<(string, string)> := [];
    while !Before(e, current)
      invariant QuarterStart(current) && NotAfter(Ymd(startYear, 1, 1), current)
      invariant all == ws + Windows(current, e)
      invariant forall i :: 0 <= i < |all| ==> InRange(all[i].first) && InRange(all[i].last)
      invariant |out| == |ws| <= |all| && forall i :: 0 <= i < |out| ==> out[i] == (Format(all[i].first), Format(all[i].last))
      decreases e.year - current.year, 12 - current.month
    {
      var pair, next;
      ghost var w;
      pair, w, next := QuarterStep(current, e);
      Shift(all, ws, w, Windows(next, e));
      out := out + [pair];
      ws := ws + [w];
      current := next;
    }
    assert ws + [] == ws;
    assert out == Labels(all);
    return Some(out);
  }

  // ---------------------------------------------------------------------------
  // pagenation_quarter (lines 62-77)
  // ---------------------------------------------------------------------------

  /** The frames joined, or None when a call raised (the exception leaves the function). */
  function QuarterPages(api: Api, limit: nat, offset: nat): Option<Frame>
    decreases MaxOffset - offset
  {
    if api.fault(offset, 0).Some? then None
    else
      var page := Slice(api, offset, limit);
      if page == [] then Some([])
      else if |page| < limit || offset + |page| >= MaxOffset then Some(page)
      else
        match QuarterPages(api, limit, offset + |page|)
        case None => None
        case Some(rest) => Some(page + rest)
  }

  /** The loop from `offset`, after the frames `data`. */
  function PagesAfter(api: Api, limit: nat, offset: nat, data: Frame): Option<Frame>
    decreases MaxOffset - offset
  {
    if api.fault(offset, 0).Some? then None
    else
      var page := Slice(api, offset, limit);
      if page == [] then Some(data)
      else if |page| < limit || offset + |page| >= MaxOffset then Some(data + page)
      else PagesAfter(api, limit, offset + |page|, data + page)
  }

  lemma {:induction false} PagesAfterIs(api: Api, limit: nat, offset: nat, data: Frame)
    ensures PagesAfter(api, limit, offset, data) ==
      (match QuarterPages(api, limit, offset) case None => None case Some(rest) => Some(data + rest))
    decreases MaxOffset - offset
  {
    var page := Slice(api, offset, limit);
    if api.fault(offset, 0).None? && page != [] && |page| >= limit && offset + |page| < MaxOffset {
      PagesAfterIs(api, limit, offset + |page|, data + page);
      match QuarterPages(api, limit, offset + |page|)
      case None =>
      case Some(rest) =>
        assert (data + page) + rest == data + (page + rest);
    }
    if api.fault(offset, 0).None? && page == [] {
      assert data + [] == data;
    }
  }

  /** `pagenation_quarter(api_name, start_date, end_date, limit)`: None where `pro.query` raises. */
  method PagenationQuarter(api: Api, limit: nat) returns (df: Option<Frame>)
    ensures df == QuarterPages(api, limit, 0)
  {
    var offset: nat := 0;
    var all: Frame := [];
    PagesAfterIs(api, limit, 0, []);
    assert forall f: Frame :: [] + f == f;
    while true
      invariant offset < MaxOffset
      invariant QuarterPages(api, limit, 0) == PagesAfter(api, limit, offset, all)
      decreases MaxOffset - offset
    {
      if api.fault(offset, 0).Some? {
        return None;
      }
      var page := Slice(api, offset, limit);
      if page == [] {
        break;
      }
      all := all + page;
      if |page| < limit {
        break;
      }
      offset := offset + |page|;
      if offset >= MaxOffset {
        break;
      }
    }
    return Some(all);
  }

  /** The page boundaries the loop reaches before `cap`: the offset where paging stops on full pages. */
  lemma {:induction false} QuarterPagesReliable(api: Api, limit: nat, offset: nat)
    requires Reliable(api) && limit > 0 && offset <= |api.data| && offset < MaxOffset
    ensures QuarterPages(api, limit, offset) == Some(api.data[offset..Min(|api.data|, Reach(MaxOffset, limit, offset))])
    decreases MaxOffset - offset
  {
    var page := Slice(api, offset, limit);
    assert api.fault(offset, 0).None?;
    if page == [] || |page| < limit || offset + limit >= MaxOffset {
      LastQuarterPage(api, limit, offset);
    } else {
      SliceFull(api, offset, limit);
      QuarterPagesReliable(api, limit, offset + limit);
      NextQuarterPage(api, limit, offset);
    }
  }

  lemma LastQuarterPage(api: Api, limit: nat, offset: nat)
    requires Reliable(api) && limit > 0 && offset <= |api.data| && offset < MaxOffset
    requires var page := Slice(api, offset, limit); page == [] || |page| < limit || offset + limit >= MaxOffset
    ensures QuarterPages(api, limit, offset) == Some(api.data[offset..Min(|api.data|, Reach(MaxOffset, limit, offset))])
  {
    assert api.fault(offset, 0).None?;
    var page := Slice(api, offset, limit);
    var m := Min(|api.data|, Reach(MaxOffset, limit, offset));
    if page == [] {
      assert offset == |api.data| == m;
      assert api.data[offset..m] == [];
    } else if |page| < limit {
      assert m == |api.data| && page == api.data[offset..m];
    } else {
      SliceFull(api, offset, limit);
      assert m == offset + limit;
    }
  }

  lemma NextQuarterPage(api: Api, limit: nat, offset: nat)
    requires Reliable(api) && limit > 0 && offset < MaxOffset
    requires var page := Slice(api, offset, limit); page != [] && |page| == limit && offset + limit < MaxOffset
    requires offset + limit <= |api.data|
    requires QuarterPages(api, limit, offset + limit)
          == Some(api.data[offset + limit..Min(|api.data|, Reach(MaxOffset, limit, offset + limit))])
    ensures QuarterPages(api, limit, offset) == Some(api.data[offset..Min(|api.data|, Reach(MaxOffset, limit, offset))])
  {
    assert api.fault(offset, 0).None?;
    var m := Min(|api.data|, Reach(MaxOffset, limit, offset + limit));
    ReachStep(MaxOffset, limit, offset);
    SliceFull(api, offset, limit);
    SliceJoin(api.data, offset, offset + limit, m);
  }

  /**
   * Without faults the pager returns the whole result set when it holds at
   * most 100000 rows, and otherwise its first rows up to the first page
   * boundary at or past 100000.
   */
  lemma PagenationQuarterReliable(api: Api, limit: nat)
    requires Reliable(api) && limit > 0
    ensures var df := QuarterPages(api, limit, 0);
      && df == Some(api.data[..Min(|api.data|, Reach(MaxOffset, limit, 0))])
      && (|api.data| <= MaxOffset ==> df == Some(api.data))
      && |df.value| < MaxOffset + limit
  {
    QuarterPagesReliable(api, limit, 0);
    if |api.data| <= MaxOffset {
      assert api.data[..|api.data|] == api.data;
    }
  }

  /** Any call that raises loses every page before it. */
  lemma FaultLosesPages(api: Api, limit: nat)
    requires 0 < limit < MaxOffset && limit <= |api.data|
    requires api.fault(0, 0).None? && api.fault(limit, 0).Some?
    ensures Slice(api, 0, limit) != [] && QuarterPages(api, limit, 0).None?
  {
  }

  // ---------------------------------------------------------------------------
  // The stk_managers resume year (lines 186-195)
  // ---------------------------------------------------------------------------

  /**
   * `max_date`: the metadata's value for stk_managers when it is there, not
   * empty and not the text "None"; otherwise 20141231. `stored` is None when
   * the metadata table or its row is missing or the value is null.
   */
  function MaxDate(stored: Option<string>): string {
    if stored.Some? && stored.value != "" && stored.value != "None" then stored.value else DefaultMaxDate
  }

  /** `int(max_date[:4])`, or 2015 when that is not a number. */
  function ResumeYear(stored: Option<string>): (y: nat)
  {
    var md := MaxDate(stored);
    var head := md[..if |md| < 4 then |md| else 4];
    if head != [] && AllDigits(head) then DigitsValue(head) else DefaultYear
  }

  /**
   * The refresh resumes from the year of a stored YYYYMMDD date, from 2014
   * when nothing usable is stored, and from 2015 when the stored text does
   * not start with a digit.
   */
  lemma ResumeYearMeaning(stored: Option<string>)
    ensures stored.Some? && IsDateString(stored.value) ==> ResumeYear(stored) == Parse(stored.value).value.year
    ensures (stored.None? || stored == Some("") || stored == Some("None")) ==> ResumeYear(stored) == 2014
    ensures stored.Some? && stored.value != [] && !IsDigit(stored.value[0]) && stored.value != "None" ==> ResumeYear(stored) == DefaultYear
  {
    if stored.Some? && IsDateString(stored.value) {
      var s := stored.value;
      assert AllDigits(s[..4]);
    }
    if stored.None? || stored == Some("") || stored == Some("None") {
      assert DefaultMaxDate[..4] == "2014";
      TwoDigitsPair("2014");
    }
  }

  lemma TwoDigitsPair(s: string)
    requires s == "2014"
    ensures AllDigits(s) && DigitsValue(s) == 2014
  {
    assert s[..3] == "201" && s[..3][..2] == "20" && s[..3][..2][..1] == "2";
    assert DigitsValue("2") == 2;
    assert DigitsValue("20") == 20;
    assert DigitsValue("201") == 201;
  }

  // ---------------------------------------------------------------------------
  // stk_rewards batches (lines 216-221)
  // ---------------------------------------------------------------------------

  /** `ts_codes[i:i+20]` for i = 0, 20, 40, …, from `i` on. */
  function BatchesFrom(codes: seq<string>, i: nat): seq<seq<string>>
    requires i <= |codes|
    decreases |codes| - i
  {
    if i == |codes| then []
    else
      var j := if i + BatchSize <= |codes| then i + BatchSize else |codes|;
      [codes[i..j]] + BatchesFrom(codes, j)
  }

  method RewardBatches(codes: seq<string>) returns (batches: seq<seq<string>>)
    ensures batches == BatchesFrom(codes, 0)
  {
    batches := [];
    var i := 0;
    while i < |codes|
      invariant i <= |codes|
      invariant BatchesFrom(codes, 0) == batches + BatchesFrom(codes, i)
      decreases |codes| - i
    {
      var j := if i + BatchSize <= |codes| then i + BatchSize else |codes|;
      assert BatchesFrom(codes, i) == [codes[i..j]] + BatchesFrom(codes, j);
      assert batches + BatchesFrom(codes, i) == (batches + [codes[i..j]]) + BatchesFrom(codes, j);
      batches := batches + [codes[i..j]];
      i := j;
    }
    assert batches + [] == batches;
  }

  /**
   * The batches joined give back every code in order; each holds 1 to 20
   * codes and only the last may hold fewer than 20.
   */
  lemma {:induction false} BatchesCover(codes: seq<string>, i: nat)
    requires i <= |codes|
    ensures Concat(BatchesFrom(codes, i)) == codes[i..]
    ensures forall k :: 0 <= k < |BatchesFrom(codes, i)| ==> 1 <= |BatchesFrom(codes, i)[k]| <= BatchSize
    ensures forall k :: 0 <= k < |BatchesFrom(codes, i)| - 1 ==> |BatchesFrom(codes, i)[k]| == BatchSize
    decreases |codes| - i
  {
    if i < |codes| {
      var j := if i + BatchSize <= |codes| then i + BatchSize else |codes|;
      var bs := BatchesFrom(codes, i);
      var rest := BatchesFrom(codes, j);
      BatchesCover(codes, j);
      assert bs == [codes[i..j]] + rest;
      assert bs[1..] == rest;
      assert codes[i..] == codes[i..j] + codes[j..];
      forall k | 0 <= k < |bs| - 1 ensures |bs[k]| == BatchSize {
        if k > 0 {
          assert bs[k] == rest[k - 1];
        } else {
          assert j < |codes|;
        }
      }
      forall k | 0 <= k < |bs| ensures 1 <= |bs[k]| <= BatchSize {
        if k > 0 {
          assert bs[k] == rest[k - 1];
        }
      }
    }
  }

  // ---------------------------------------------------------------------------
  // The menu choice (lines 163-172)
  // ---------------------------------------------------------------------------

  datatype Choice = Quit | Report | Table(index: nat)

  /** `choice.strip()` read against `n` tables: q quits; a number 1..n picks a table; anything else shows the report. */
  function MenuChoice(input: string, n: nat): (c: Choice)
  {
    var s := Utils.Strip(input);
    if s == "q" then Quit
    else if s == [] || !AllDigits(s) || !(1 <= DigitsValue(s) <= n) then Report
    else Table(DigitsValue(s) - 1)
  }

  /** A choice picks a table exactly when it is a number in 1..n, and that table is the one shown under the number. */
  lemma MenuChoiceMeaning(input: string, n: nat, k: nat)
    ensures MenuChoice(input, n).Table? ==> MenuChoice(input, n).index < n
    ensures 1 <= k <= n ==> MenuChoice(Calendar.NatStr(k), n) == Table(k - 1)
    ensures MenuChoice(input, n).Report? <==>
      (Utils.Strip(input) != "q" && !(Utils.Strip(input) != [] && AllDigits(Utils.Strip(input)) && 1 <= DigitsValue(Utils.Strip(input)) <= n))
  {
    if 1 <= k <= n {
      var s := NatStr(k);
      NatStrValue(k);
      assert forall i :: 0 <= i < |s| ==> !Utils.Space(s[i]);
      Utils.StripTrimmed(s);
      assert s != "q" by { assert IsDigit(s[0]); }
    }
  }
}
