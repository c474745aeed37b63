/**
 * The `pagenation` helper of examples/config.py.
 *
 * The query is sent without a row limit, so each page holds the server's own
 * page size (`served`) of the result set from the requested offset; the helper
 * compares each page's size with its own `limit` argument and advances the
 * offset by `limit`. A query that raises ends the whole call with the
 * exception (`None`).
 */
module ConfigPagination {
  import opened Common
  import opened Remote

  /** One query: the page at `offset`, or the exception it raised. */
  function Query(api: Api, served: nat, offset: nat): Option<Frame> {
    if api.fault(offset, 0).Some? then None else Some(Slice(api, offset, served))
  }

  /** The requests the `while` loop makes from `offset` on, each with its page; None when one raises. */
  function More(api: Api, served: nat, limit: nat, offset: nat): Option<seq<(nat, Frame)>>
    requires limit > 0
    decreases |api.data| - offset
  {
    match Query(api, served, offset)
    case None => None
    case Some(p) =>
      if |p| == limit then
        match More(api, served, limit, offset + limit)
        case None => None
        case Some(rest) => Some([(offset, p)] + rest)
      else Some([(offset, p)])
  }

  /** The trace `log` followed by the requests of `more`, or the exception. */
  function Then(log: seq<(nat, Frame)>, more: Option<seq<(nat, Frame)>>): Option<seq<(nat, Frame)>> {
    match more
    case None => None
    case Some(rest) => Some(log + rest)
  }

  /** Every request of one call with its page: the first at offset 0, then the loop's. */
  function Trace(api: Api, served: nat, limit: int): Option<seq<(nat, Frame)>> {
    match Query(api, served, 0)
    case None => None
    case Some(p) =>
      if p == [] || |p| != limit then Some([(0, p)])
      else Then([(0, p)], More(api, served, limit, limit))
  }

  function PagesOf(t: seq<(nat, Frame)>): (fs: seq<Frame>)
    ensures |fs| == |t| && forall i :: 0 <= i < |t| ==> fs[i] == t[i].1
  {
    seq(|t|, i requires 0 <= i < |t| => t[i].1)
  }

  /** `pagenation(api_name, limit)`: every page concatenated in request order, or the exception. */
  method Pagenation(api: Api, served: nat, limit: int) returns (r: Option<Frame>)
    ensures r.None? <==> Trace(api, served, limit).None?
    ensures r.Some? ==> r.value == Concat(PagesOf(Trace(api, served, limit).value))
  {
    var offset: nat := 0;
    var q := Query(api, served, offset);
    if q.None? {
      return None;
    }
    var df := q.value;
    if df == [] {
      assert PagesOf([(0, df)]) == [df];
      assert Concat([df]) == df + Concat([]);
      return Some(df);
    }
    var all: seq<Frame> := [df];
    ghost var log: seq<(nat, Frame)> := [(0, df)];
    ghost var goal := Trace(api, served, limit);
    while |df| == limit
      invariant |df| == limit ==> limit > 0 && offset < |api.data|
      invariant all == PagesOf(log)
      invariant |df| == limit ==> goal == Then(log, More(api, served, limit, offset + limit))
      invariant |df| != limit ==> goal == Some(log)
      decreases |api.data| - offset
    {
      offset := offset + limit;
      q := Query(api, served, offset);
      if q.None? {
        return None;
      }
      df := q.value;
      MoreStep(api, served, limit, offset, df, log);
      all := all + [df];
      log := log + [(offset, df)];
      assert all == PagesOf(log);
      if |df| < limit {
        break;
      }
    }
    r := Some(Concat(all));
  }

  /** One more page of the loop, seen from the trace so far. */
  lemma MoreStep(api: Api, served: nat, limit: nat, offset: nat, p: Frame, log: seq<(nat, Frame)>)
    requires limit > 0 && Query(api, served, offset) == Some(p)
    ensures Then(log, More(api, served, limit, offset))
         == if |p| == limit then Then(log + [(offset, p)], More(api, served, limit, offset + limit))
            else Some(log + [(offset, p)])
  {
    if |p| == limit {
      match More(api, served, limit, offset + limit)
      case None =>
      case Some(rest) =>
        assert log + ([(offset, p)] + rest) == (log + [(offset, p)]) + rest;
    }
  }

  /** PagesOf distributes over a leading request. */
  lemma PagesOfCons(x: (nat, Frame), t: seq<(nat, Frame)>)
    ensures PagesOf([x] + t) == [x.1] + PagesOf(t)
  {
    assert PagesOf([x] + t)[1..] == PagesOf(t);
  }

  /**
   * The loop's requests sit `limit` rows apart from `offset`; every page but
   * the last is full and the last is not.
   */
  lemma {:induction false} MoreShape(api: Api, served: nat, limit: nat, offset: nat, t: seq<(nat, Frame)>)
    requires limit > 0 && More(api, served, limit, offset) == Some(t)
    ensures |t| > 0
    ensures forall i :: 0 <= i < |t| ==> t[i].0 == offset + i * limit
    ensures forall i :: 0 <= i < |t| - 1 ==> |t[i].1| == limit
    ensures |t[|t| - 1].1| != limit
    decreases |api.data| - offset
  {
    var p := Query(api, served, offset).value;
    if |p| == limit {
      var rest := More(api, served, limit, offset + limit).value;
      MoreShape(api, served, limit, offset + limit, rest);
      assert t == [(offset, p)] + rest;
      forall i | 0 < i < |t|
        ensures t[i].0 == offset + i * limit
      {
        assert t[i] == rest[i - 1];
        assert (i - 1) * limit + limit == i * limit;
      }
    }
  }

  /**
   * With a reliable API whose page size is `limit`, the loop from `offset`
   * returns the rest of the result set, in order and without gaps.
   */
  lemma {:induction false} MoreAll(api: Api, limit: nat, offset: nat)
    requires Reliable(api) && limit > 0 && offset <= |api.data|
    ensures More(api, limit, limit, offset).Some?
    ensures Concat(PagesOf(More(api, limit, limit, offset).value)) == api.data[offset..]
    decreases |api.data| - offset
  {
    assert api.fault(offset, 0).None?;
    var p := Slice(api, offset, limit);
    if |p| == limit {
      MoreAll(api, limit, offset + limit);
      var rest := More(api, limit, limit, offset + limit).value;
      PagesOfCons((offset, p), rest);
      assert api.data[offset..] == p + api.data[offset + limit..];
    } else {
      assert PagesOf([(offset, p)]) == [p];
      assert Concat([p]) == p + Concat([]);
    }
  }

  /**
   * One call's requests are at offsets 0, limit, 2·limit, …; every page but
   * the last is full, and the last is short or empty.
   */
  lemma TraceShape(api: Api, served: nat, limit: int, t: seq<(nat, Frame)>)
    requires Trace(api, served, limit) == Some(t)
    ensures |t| > 0 && t[0].0 == 0
    ensures forall i :: 0 <= i < |t| ==> t[i].0 == i * limit
    ensures forall i :: 0 <= i < |t| - 1 ==> |t[i].1| == limit
    ensures t[|t| - 1].1 == [] || |t[|t| - 1].1| != limit
  {
    var p := Query(api, served, 0).value;
    if p != [] && |p| == limit {
      var rest := More(api, served, limit, limit).value;
      MoreShape(api, served, limit, limit, rest);
      assert t == [(0, p)] + rest;
      forall i | 0 < i < |t|
        ensures t[i].0 == i * limit
      {
        assert t[i] == rest[i - 1];
        assert limit + (i - 1) * limit == i * limit;
      }
    }
  }

  /**
   * With a reliable API whose page size equals `limit`, `pagenation` returns
   * the whole result set.
   */
  lemma TraceAll(api: Api, limit: nat)
    requires Reliable(api) && limit > 0
    ensures Trace(api, limit, limit).Some?
    ensures Concat(PagesOf(Trace(api, limit, limit).value)) == api.data
  {
    assert api.fault(0, 0).None?;
    var p := Slice(api, 0, limit);
    if p != [] && |p| == limit {
      MoreAll(api, limit, limit);
      var rest := More(api, limit, limit, limit).value;
      PagesOfCons((0, p), rest);
      assert api.data == p + api.data[limit..];
    } else {
      assert PagesOf([(0, p)]) == [p];
      assert Concat([p]) == p + Concat([]);
      assert api.data[0..] == api.data;
    }
  }
}
