/** The page/limit/offset arithmetic shared by the order and product listings. */
module Pagination {
  import opened Records

  const MaxLimit := 50

  datatype Window = Window(page: int, limit: int, offset: int)

  /** `min(50, getInt('limit', default))`: capped from above only. */
  function CapLimit(limit: Option<int>, defaultLimit: int): (r: int)
    ensures r <= MaxLimit
    ensures limit.None? && defaultLimit <= MaxLimit ==> r == defaultLimit
    ensures limit.Some? ==> r == limit.value || (limit.value > MaxLimit && r == MaxLimit)
  {
    var l := limit.GetOr(defaultLimit);
    if l < MaxLimit then l else MaxLimit
  }

  /** The clamped page and limit of a listing, and the offset of its first row. */
  function Paginate(page: Option<int>, limit: Option<int>, defaultLimit: int): (w: Window)
    ensures w.page >= 1 && w.limit <= MaxLimit
    ensures page.None? ==> w.page == 1
    ensures page.Some? ==> w.page == page.value || (page.value < 1 && w.page == 1)
    ensures w.limit == CapLimit(limit, defaultLimit)
    ensures w.offset == (w.page - 1) * w.limit
    ensures w.limit >= 0 ==> w.offset >= 0
  {
    var p := page.GetOr(1);
    var pg := if p < 1 then 1 else p;
    var l := CapLimit(limit, defaultLimit);
    Window(pg, l, (pg - 1) * l)
  }

  /** `ceil($total / $limit)`. A limit of 0 raises PHP's division-by-zero error, which
      the model reports as `None`; a negative limit gives a page count of at most 0. */
  function Pages(total: nat, limit: int): (r: Option<int>)
    ensures r.None? <==> limit == 0
    ensures limit > 0 ==> r.Some? && r.value >= 0 && total <= r.value * limit < total + limit
    ensures limit < 0 ==> r.Some? && r.value <= 0 && r.value * limit <= total < r.value * limit - limit
  {
    if limit == 0 then None
    else if limit > 0 then
      var q := (total + limit - 1) / limit;
      CeilingUp(total, limit);
      Some(q)
    else
      var q := total / -limit;
      CeilingDown(total, -limit);
      Some(-q)
  }

  lemma CeilingUp(t: nat, l: int)
    requires l > 0
    ensures (t + l - 1) / l >= 0
    ensures t <= ((t + l - 1) / l) * l < t + l
  {
    var q, r := (t + l - 1) / l, (t + l - 1) % l;
    assert t + l - 1 == q * l + r && 0 <= r < l;
  }

  lemma CeilingDown(t: nat, m: int)
    requires m > 0
    ensures t / m >= 0
    ensures (t / m) * m <= t < (t / m) * m + m
  {
    var q, r := t / m, t % m;
    assert t == q * m + r && 0 <= r < m;
  }

  /** The listing's request for page 1 with `?limit=0`: the page count cannot be computed. */
  lemma ZeroLimitFails(total: nat)
    ensures Paginate(None, Some(0), 10).limit == 0
    ensures Pages(total, Paginate(None, Some(0), 10).limit).None?
  {
  }

  /** The clamping the listings evidently intend: the limit also bounded from below by 1. */
  function PaginateIntended(page: Option<int>, limit: Option<int>, defaultLimit: int): (w: Window)
    ensures w.page >= 1 && 1 <= w.limit <= MaxLimit && w.offset >= 0
    ensures w.offset == (w.page - 1) * w.limit
    ensures limit.Some? && 1 <= limit.value <= MaxLimit ==> w == Paginate(page, limit, defaultLimit)
  {
    var w := Paginate(page, limit, defaultLimit);
    var l := if w.limit < 1 then 1 else w.limit;
    Window(w.page, l, (w.page - 1) * l)
  }

  /** With the intended clamp every listing has a page count, and it is the ceiling. */
  lemma IntendedPagesDefined(total: nat, page: Option<int>, limit: Option<int>, defaultLimit: int)
    ensures var w := PaginateIntended(page, limit, defaultLimit);
      Pages(total, w.limit).Some? && total <= Pages(total, w.limit).value * w.limit < total + w.limit
  {
  }
}
