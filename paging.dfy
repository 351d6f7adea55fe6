/**
 * Offset pagination as the list endpoints compute it:
 * `skip = (page - 1) * limit`, `take = limit`, `totalPages = Math.ceil(total / limit)`.
 */
module Paging {
  import opened Sorting

  /** `Math.ceil(total / limit)` for a non-negative total and a positive limit. */
  function CeilDiv(total: nat, limit: nat): (pages: nat)
    requires limit > 0
    ensures (pages - 1) * limit < total <= pages * limit || (total == 0 && pages == 0)
    ensures total == 0 <==> pages == 0
  {
    var q := (total + limit - 1) / limit;
    assert q * limit <= total + limit - 1 < (q + 1) * limit;
    q
  }

  function Skip(page: nat, limit: nat): (skip: int)
    requires page >= 1
    ensures skip >= 0
  {
    (page - 1) * limit
  }

  /** Prisma's `skip`/`take` over an ordered result. */
  function Window<T>(rows: seq<T>, skip: nat, take: nat): (r: seq<T>)
    ensures |r| <= take
    ensures |r| == if skip >= |rows| then 0 else if skip + take <= |rows| then take else |rows| - skip
    ensures forall i | 0 <= i < |r| :: r[i] == rows[skip + i]
  {
    if skip >= |rows| then [] else rows[skip..if skip + take <= |rows| then skip + take else |rows|]
  }

  /** Every row lies on exactly the page that `skip` points past, and that page exists. */
  lemma {:induction false} RowOnPage(i: nat, total: nat, limit: nat)
    requires limit > 0 && i < total
    ensures var page := i / limit + 1;
      1 <= page <= CeilDiv(total, limit) && Skip(page, limit) <= i < Skip(page, limit) + limit
  {
    var q := i / limit;
    var pages := CeilDiv(total, limit);
    assert q * limit <= i < q * limit + limit;
    assert Skip(q + 1, limit) == q * limit;
    if q >= pages {
      ScaleUp(pages, q, limit);
      assert false;
    }
  }

  lemma ScaleUp(a: nat, b: nat, n: nat)
    requires a <= b
    ensures a * n <= b * n
  {
    assert b * n == a * n + (b - a) * n;
  }

  /** The last page is never empty, and the page after it is. */
  lemma {:induction false} LastPageNonEmpty(total: nat, limit: nat)
    requires limit > 0 && total > 0
    ensures Skip(CeilDiv(total, limit), limit) < total <= Skip(CeilDiv(total, limit) + 1, limit)
  {
  }

  /**
   * Paging loses no row: row `i` of the ordered result is shown on page
   * `i / limit + 1`, which exists, at position `i - skip` of that page.
   */
  lemma RowListedOnPage<T>(rows: seq<T>, limit: nat, i: nat)
    requires limit > 0 && i < |rows|
    ensures var page := i / limit + 1;
      1 <= page <= CeilDiv(|rows|, limit)
      && 0 <= i - Skip(page, limit) < |Window(rows, Skip(page, limit), limit)|
      && Window(rows, Skip(page, limit), limit)[i - Skip(page, limit)] == rows[i]
  {
    RowOnPage(i, |rows|, limit);
  }

  /** No row is lost between pages: each one is on some page that exists. */
  lemma ListedOnSomePage<T>(rows: seq<T>, limit: nat, x: T)
    requires limit > 0 && x in rows
    ensures exists page | 1 <= page <= CeilDiv(|rows|, limit) :: x in Window(rows, Skip(page, limit), limit)
  {
    var i :| 0 <= i < |rows| && rows[i] == x;
    RowListedOnPage(rows, limit, i);
    var page := i / limit + 1;
    assert Window(rows, Skip(page, limit), limit)[i - Skip(page, limit)] == x;
  }

  /** A page holds rows of the result only, in the result's order. */
  lemma WindowOf<T>(rows: seq<T>, skip: nat, take: nat, before: (T, T) -> bool)
    requires SortedBy(rows, before)
    ensures forall x | x in Window(rows, skip, take) :: x in rows
    ensures SortedBy(Window(rows, skip, take), before)
  {
    var r := Window(rows, skip, take);
    forall x | x in r ensures x in rows {
      var k :| 0 <= k < |r| && r[k] == x;
      assert x == rows[skip + k];
    }
    forall i, j | 0 <= i < j < |r| ensures before(r[i], r[j]) {
      assert r[i] == rows[skip + i] && r[j] == rows[skip + j];
    }
  }
}
