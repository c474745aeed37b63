/**
 * The Tushare API seen from one call site. A query with fixed parameters
 * selects one consistent result set; the API serves it in `offset`/`limit`
 * slices. Whether a given attempt at a given offset raises, and with which
 * message, is decided by the `fault` oracle (rate limiting, network errors).
 */
module Remote {
  import opened Common

  datatype Api = Api(data: Frame, fault: (nat, nat) -> Option<string>)

  function Min(a: int, b: int): int {
    if a <= b then a else b
  }

  function Max(a: int, b: int): int {
    if a >= b then a else b
  }

  /** The rows one successful query at `offset` with `limit` returns. */
  function Slice(api: Api, offset: nat, limit: nat): (p: Frame)
    ensures |p| <= limit
    ensures offset >= |api.data| ==> p == []
    ensures offset < |api.data| ==> p == api.data[offset..Min(offset + limit, |api.data|)]
    ensures offset + limit <= |api.data| ==> |p| == limit
    ensures |p| < limit ==> offset + |p| >= |api.data|
  {
    if offset >= |api.data| then [] else api.data[offset..Min(offset + limit, |api.data|)]
  }

  /** Consecutive full slices are consecutive parts of the result set. */
  lemma SliceNext(api: Api, offset: nat, limit: nat)
    requires offset < |api.data|
    ensures Slice(api, offset, limit) + api.data[offset + |Slice(api, offset, limit)|..] == api.data[offset..]
  {
  }

  /** A full page lies wholly inside the result set. */
  lemma SliceFull(api: Api, offset: nat, limit: nat)
    requires limit > 0 && |Slice(api, offset, limit)| == limit
    ensures offset + limit <= |api.data| && Slice(api, offset, limit) == api.data[offset..offset + limit]
  {
  }

  /** The first offset at which paging from `offset` over full pages of `limit` rows reaches `cap`. */
  function Reach(cap: nat, limit: nat, offset: nat): (n: nat)
    requires limit > 0
    ensures n >= offset + limit
    ensures offset < cap ==> cap <= n < cap + limit
    decreases cap - offset
  {
    if offset + limit >= cap then offset + limit else Reach(cap, limit, offset + limit)
  }

  lemma ReachStep(cap: nat, limit: nat, offset: nat)
    requires limit > 0 && offset + limit < cap
    ensures Reach(cap, limit, offset) == Reach(cap, limit, offset + limit)
  {
  }

  /** An API that never raises. */
  ghost predicate Reliable(api: Api) {
    forall o: nat, a: nat :: api.fault(o, a).None?
  }
}
