/** The page window of `GET /all-vehicles`: `skip = (page-1)*limit`, at most
    `limit` documents, and `totalPages = ceil(total/limit)`. */
module Paging {

  /** Offset of the first document of page `page` (pages count from 1). */
  function Skip(page: int, limit: int): (n: int)
    ensures page >= 1 && limit >= 0 ==> n >= 0
  {
    NonNegativeProduct(page - 1, limit);
    (page - 1) * limit
  }

  lemma NonNegativeProduct(a: int, b: int)
    ensures a >= 0 && b >= 0 ==> a * b >= 0
  {
  }

  function Min(a: int, b: int): int {
    if a <= b then a else b
  }

  /** `cursor.skip(skip).limit(limit)` for a positive `limit`. */
  function Window<T>(s: seq<T>, skip: nat, limit: nat): (r: seq<T>)
    requires limit > 0
    ensures |r| == if skip >= |s| then 0 else Min(limit, |s| - skip)
    ensures forall i | 0 <= i < |r| :: skip + i < |s| && r[i] == s[skip + i]
  {
    if skip >= |s| then [] else s[skip..Min(skip + limit, |s|)]
  }

  /** `Math.ceil(total / limit)`. */
  function TotalPages(total: nat, limit: int): (n: nat)
    requires limit > 0
    ensures n * limit >= total
    ensures total > 0 ==> (n - 1) * limit < total
    ensures total == 0 ==> n == 0
  {
    var q, r := total / limit, total % limit;
    assert total == q * limit + r;
    if r == 0 then q
    else
      assert (q + 1) * limit == q * limit + limit;
      q + 1
  }

  /** Page `page` of a list holds exactly the `limit` elements that follow the
      first `Skip(page, limit)`; every page before the last is full. */
  lemma FullPagesBeforeLast(total: nat, limit: int, page: int)
    requires limit > 0 && 1 <= page < TotalPages(total, limit)
    ensures Skip(page, limit) + limit <= total
  {
    var n := TotalPages(total, limit);
    MulMonotone(page, n - 1, limit);
  }

  /** The last page is never empty. */
  lemma LastPageNotEmpty(total: nat, limit: int)
    requires limit > 0 && total > 0
    ensures 0 <= Skip(TotalPages(total, limit), limit) < total
  {
  }

  /** A page past the last is empty. */
  lemma PagePastLastEmpty<T>(s: seq<T>, limit: int, page: int)
    requires limit > 0 && page > TotalPages(|s|, limit)
    ensures Skip(page, limit) >= |s|
    ensures Window(s, Skip(page, limit), limit) == []
  {
    MulMonotone(TotalPages(|s|, limit), page - 1, limit);
  }

  /** Every element of a list of `total` items is on exactly one page: item `i`
      sits on page `i / limit + 1` at position `i % limit`. */
  lemma {:induction false} EveryItemOnOnePage<T>(s: seq<T>, limit: int, i: nat)
    requires limit > 0 && i < |s|
    ensures 1 <= i / limit + 1 <= TotalPages(|s|, limit)
    ensures var w := Window(s, Skip(i / limit + 1, limit), limit);
            i % limit < |w| && w[i % limit] == s[i]
    ensures forall page | 1 <= page && page != i / limit + 1 ::
              !(Skip(page, limit) <= i < Skip(page, limit) + limit)
  {
    var p, k := i / limit + 1, i % limit;
    DivModPage(i, limit);
    var skip := Skip(p, limit);
    OnPageWithinTotal(|s|, limit, p, k);
    var w := Window(s, skip, limit);
    assert k < |w| && w[k] == s[skip + k];
    forall page | 1 <= page && page != p
      ensures !(Skip(page, limit) <= i < Skip(page, limit) + limit)
    {
      PagesDisjoint(limit, p, page, k);
    }
  }

  lemma DivModPage(i: nat, limit: int)
    requires limit > 0
    ensures Skip(i / limit + 1, limit) + i % limit == i && 0 <= i % limit < limit
  {
    assert Skip(i / limit + 1, limit) == (i / limit) * limit;
  }

  lemma OnPageWithinTotal(total: nat, limit: int, p: int, k: int)
    requires limit > 0 && p >= 1 && 0 <= k && Skip(p, limit) + k < total
    ensures p <= TotalPages(total, limit)
  {
    var n := TotalPages(total, limit);
    if p > n {
      MulMonotone(n, p - 1, limit);
    }
  }

  lemma PagesDisjoint(limit: int, p: int, page: int, k: int)
    requires limit > 0 && 1 <= p && 1 <= page && page != p && 0 <= k < limit
    ensures !(Skip(page, limit) <= Skip(p, limit) + k < Skip(page, limit) + limit)
  {
    if page < p {
      MulMonotone(page, p - 1, limit);
    } else {
      MulMonotone(p, page - 1, limit);
    }
  }

  lemma MulMonotone(a: int, b: int, c: int)
    requires a <= b && c >= 0
    ensures a * c <= b * c
    ensures (a + 1) * c == a * c + c
  {
    assert b * c - a * c == (b - a) * c;
  }
}
