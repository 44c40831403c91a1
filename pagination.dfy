/** The `page`/`limit` arithmetic of the paginated listings. */
module Pagination {
  import opened Common

  const DefaultPage: int := 1
  const DefaultLimit: int := 20

  /** The page and limit a listing uses and the number of rows it skips. */
  datatype PageQuery = PageQuery(page: int, limit: int, offset: int)

  /** `const { page = 1, limit = 20 } = req.query; offset = (page - 1) * limit`. */
  function ReadPageQuery(page: Option<int>, limit: Option<int>): (q: PageQuery)
    ensures q.page == Coalesce(page, DefaultPage) && q.limit == Coalesce(limit, DefaultLimit)
    ensures q.offset == (q.page - 1) * q.limit
    ensures page.None? && limit.None? ==> q.offset == 0 && q.limit == 20
    ensures q.page >= 1 && q.limit >= 0 ==> q.offset >= 0
  {
    var p := Coalesce(page, DefaultPage);
    var l := Coalesce(limit, DefaultLimit);
    PageQuery(p, l, (p - 1) * l)
  }

  /** PostgreSQL refuses a negative LIMIT or OFFSET, so such a query fails. */
  predicate QueryRefused(q: PageQuery)
  {
    q.limit < 0 || q.offset < 0
  }

  /** `Math.ceil(count / limit)`: the least number of pages of `limit`
      rows that hold `count` rows. With a zero limit the quotient is
      Infinity or NaN, which JSON renders as null (`None`); a negative
      limit gives a page count of zero or less. */
  function TotalPages(count: nat, limit: int): (r: Option<int>)
    ensures limit > 0 ==> r.Some? && r.value >= 0 && r.value * limit >= count
    ensures limit > 0 && r.Some? && r.value > 0 ==> (r.value - 1) * limit < count
    ensures limit == 0 ==> r.None?
    ensures limit < 0 ==> r.Some? && r.value <= 0
  {
    if limit > 0 then
      var n := (count + limit - 1) / limit;
      assert count + limit - 1 == n * limit + (count + limit - 1) % limit;
      Some(n)
    else if limit == 0 then None
    else Some(-(count / -limit))
  }

  /** With a positive limit, row `k` of `count` rows lies on exactly one
      page: page `k / limit + 1`, which is within the reported page count. */
  lemma RowOnExactlyOnePage(count: nat, limit: int, k: nat, page: int)
    requires limit > 0 && k < count
    ensures var p := k / limit + 1;
      var q := ReadPageQuery(Some(p), Some(limit));
      && 1 <= p <= TotalPages(count, limit).value
      && q.offset <= k < q.offset + limit
    ensures var q := ReadPageQuery(Some(page), Some(limit));
      q.offset <= k < q.offset + limit ==> page == k / limit + 1
  {
    var d := k / limit;
    var n := TotalPages(count, limit).value;
    DivisionBrackets(k, limit);
    if n <= d {
      MultiplyMonotone(n, d, limit);
      assert false;
    }
    assert ReadPageQuery(Some(d + 1), Some(limit)).offset == d * limit;
    var q := ReadPageQuery(Some(page), Some(limit));
    assert q.offset == (page - 1) * limit;
    if q.offset <= k < q.offset + limit {
      SameBracket(page - 1, d, limit, k);
    }
  }

  /** The page that shows row `k` of `count` rows with a positive limit:
      its query is accepted, its offset is the bracket below `k`, and `k`
      lies inside its window, at entry `k % limit`. */
  lemma PageOfRow(count: nat, limit: int, k: nat)
    requires limit > 0 && k < count
    ensures var q := ReadPageQuery(Some(k / limit + 1), Some(limit));
      && !QueryRefused(q)
      && q.limit == limit
      && q.offset + k % limit == k
      && q.offset < count
      && k % limit < limit
      && k % limit < count - q.offset
  {
    DivisionBrackets(k, limit);
    assert k == (k / limit) * limit + k % limit;
  }

  /** `k / limit` brackets `k` between two consecutive multiples of `limit`. */
  lemma DivisionBrackets(k: nat, limit: int)
    requires limit > 0
    ensures (k / limit) * limit <= k < (k / limit) * limit + limit
  {
    assert k == (k / limit) * limit + k % limit;
  }

  /** Two brackets `[e * limit, e * limit + limit)` that share a point are the same. */
  lemma SameBracket(e: int, d: int, limit: int, k: int)
    requires limit > 0
    requires e * limit <= k < e * limit + limit
    requires d * limit <= k < d * limit + limit
    ensures e == d
  {
    if e < d {
      MultiplyMonotone(e + 1, d, limit);
      assert false;
    } else if d < e {
      MultiplyMonotone(d + 1, e, limit);
      assert false;
    }
  }

  lemma MultiplyMonotone(a: int, b: int, c: int)
    requires a <= b && c >= 0
    ensures a * c <= b * c
  {
    assert b * c - a * c == (b - a) * c;
  }
}
