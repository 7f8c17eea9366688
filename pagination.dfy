/**
 * The pagination envelope `{data, meta: {total, page, lastPage}}` that every
 * list operation returns, and the offset/limit window (`skip`/`take`) that
 * selects one page of an ordered listing.
 */
module Pagination {

  datatype Meta = Meta(total: nat, page: int, lastPage: nat)

  datatype Paginated<T> = Paginated(data: seq<T>, meta: Meta)

  function Min(a: int, b: int): int {
    if a <= b then a else b
  }

  // ------------------------------------------------------ small arithmetic

  lemma MulLeft(a: int, b: int, c: int)
    requires a <= b && c >= 0
    ensures a * c <= b * c
  {
  }

  /** Cancelling a positive factor from a strict inequality. */
  lemma MulCancelStrict(a: int, b: int, c: int)
    requires c >= 1 && a * c < b * c
    ensures a < b
  {
    if a >= b {
      MulLeft(b, a, c);
    }
  }

  /** Quotient and remainder are the unique pair with `x == q * d + r` and `0 <= r < d`. */
  lemma DivModUnique(x: int, d: int, q: int, r: int)
    requires d >= 1 && 0 <= r < d && x == q * d + r
    ensures x / d == q && x % d == r
  {
    var q', r' := x / d, x % d;
    assert x == q' * d + r';
    if q' < q {
      MulLeft(q' + 1, q, d);
      assert false;
    } else if q < q' {
      MulLeft(q + 1, q', d);
      assert false;
    }
  }

  // ------------------------------------------------------------- lastPage

  /**
   * `Math.ceil(total / limit)` for a positive limit, in integers: the number of
   * pages of `limit` rows that `total` rows fill.
   */
  function LastPage(total: nat, limit: int): (n: nat)
    requires limit >= 1
    ensures total == 0 ==> n == 0
    ensures total > 0 ==> (n - 1) * limit < total <= n * limit
  {
    var x := total + limit - 1;
    var q, r := x / limit, x % limit;
    assert x == q * limit + r && 0 <= r < limit;
    assert q * limit == total + (limit - 1 - r);
    assert (q - 1) * limit == total - 1 - r;
    q
  }

  /** `lastPage` is the fewest pages that can hold `total` rows. */
  lemma LastPageIsLeast(total: nat, limit: int, n: nat)
    requires limit >= 1 && total <= n * limit
    ensures LastPage(total, limit) <= n
  {
    var lp := LastPage(total, limit);
    if lp > 0 {
      MulCancelStrict(lp - 1, n, limit);
    }
  }

  /** More rows never mean fewer pages. */
  lemma LastPageMonotone(t1: nat, t2: nat, limit: int)
    requires limit >= 1 && t1 <= t2
    ensures LastPage(t1, limit) <= LastPage(t2, limit)
  {
    LastPageIsLeast(t1, limit, LastPage(t2, limit));
  }

  /**
   * The envelope for one page: the rows are passed through unchanged, `total`
   * and `page` are copied, and `lastPage` is the ceiling of `total / limit`.
   * Neither `page` nor `limit` is clamped.
   */
  function Paginate<T>(data: seq<T>, total: nat, page: int, limit: int): (r: Paginated<T>)
    requires limit >= 1
    ensures r.data == data
    ensures r.meta.total == total && r.meta.page == page
    ensures total == 0 ==> r.meta.lastPage == 0
    ensures total > 0 ==> (r.meta.lastPage - 1) * limit < total <= r.meta.lastPage * limit
  {
    Paginated(data, Meta(total, page, LastPage(total, limit)))
  }

  // --------------------------------------------------------------- window

  /** `skip = (page - 1) * limit`. */
  function Offset(page: int, limit: int): nat
    requires page >= 1 && limit >= 1
  {
    MulLeft(0, page - 1, limit);
    (page - 1) * limit
  }

  /**
   * The rows a query with `skip: Offset(page, limit)` and `take: limit` returns
   * from an ordered listing: at most `limit` consecutive rows starting at the
   * offset, and none when the offset is past the end.
   */
  function Window<T>(rows: seq<T>, page: int, limit: int): (w: seq<T>)
    requires page >= 1 && limit >= 1
    ensures |w| == if Offset(page, limit) >= |rows| then 0 else Min(limit, |rows| - Offset(page, limit))
    ensures forall j :: 0 <= j < |w| ==> Offset(page, limit) + j < |rows| && w[j] == rows[Offset(page, limit) + j]
  {
    var off := Offset(page, limit);
    rows[Min(off, |rows|)..Min(off + limit, |rows|)]
  }

  /**
   * Every row of a listing is on page `i / limit + 1`, at position
   * `i % limit`, and that page is no later than `lastPage`.
   */
  lemma RowOnPage<T>(rows: seq<T>, limit: int, i: int)
    requires limit >= 1 && 0 <= i < |rows|
    ensures var page := i / limit + 1;
      && 1 <= page <= LastPage(|rows|, limit)
      && i % limit < |Window(rows, page, limit)|
      && Window(rows, page, limit)[i % limit] == rows[i]
  {
    var q, r := i / limit, i % limit;
    assert i == q * limit + r;
    assert Offset(q + 1, limit) == q * limit;
    var lp := LastPage(|rows|, limit);
    assert q * limit < lp * limit;
    MulCancelStrict(q, lp, limit);
  }

  /** A row shown on a page is on no other page: its page is fixed by its index. */
  lemma RowOnOnePage<T>(rows: seq<T>, page: int, limit: int, j: int)
    requires page >= 1 && limit >= 1
    requires 0 <= j < |Window(rows, page, limit)|
    ensures (Offset(page, limit) + j) / limit + 1 == page
    ensures (Offset(page, limit) + j) % limit == j
  {
    DivModUnique(Offset(page, limit) + j, limit, page - 1, j);
  }
}
