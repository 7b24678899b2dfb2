/** `0x00-pagination/0-simple_helper_function.py`: the slice of a list that
    a 1-indexed page of a given size covers. */
module Pagination {

  /** `index_range(page, page_size)`: the half-open range `[start, end)`. */
  function IndexRange(page: int, pageSize: int): (r: (int, int))
    ensures r.1 - r.0 == pageSize
    ensures page == 1 ==> r == (0, pageSize)
    ensures page >= 1 && pageSize >= 0 ==> 0 <= r.0 <= r.1
  {
    ((page - 1) * pageSize, page * pageSize)
  }

  /** Index `i` falls on page `page`. */
  predicate OnPage(i: int, page: int, pageSize: int) {
    IndexRange(page, pageSize).0 <= i < IndexRange(page, pageSize).1
  }

  /** Reference definition of a page's start: the sizes of the pages before
      it, added one at a time. */
  function ItemsBefore(page: nat, pageSize: nat): (items: nat) {
    if page <= 1 then 0 else ItemsBefore(page - 1, pageSize) + pageSize
  }

  /** Index `i` falls on one of the pages `1..n`. */
  predicate OnPagesUpTo(i: int, n: nat, pageSize: int) {
    n > 0 && (OnPage(i, n, pageSize) || OnPagesUpTo(i, n - 1, pageSize))
  }

  /** A page starts after all the items of the pages before it and holds
      the next `pageSize` items. */
  lemma {:induction false} StartIsItemsBefore(page: nat, pageSize: nat)
    requires page >= 1
    ensures IndexRange(page, pageSize) == (ItemsBefore(page, pageSize), ItemsBefore(page, pageSize) + pageSize)
  {
    if page > 1 {
      StartIsItemsBefore(page - 1, pageSize);
      assert (page - 1) * pageSize == (page - 2) * pageSize + pageSize;
    }
  }

  /** Consecutive pages are contiguous. */
  lemma Contiguous(page: int, pageSize: int)
    ensures IndexRange(page + 1, pageSize).0 == IndexRange(page, pageSize).1
  {
  }

  /** Every page ends no later than any later page starts. */
  lemma LaterPagesStartAfter(p: int, q: int, pageSize: nat)
    requires p < q
    ensures IndexRange(p, pageSize).1 <= IndexRange(q, pageSize).0
  {
  }

  /** Distinct pages share no index. */
  lemma PagesDisjoint(i: int, p: int, q: int, pageSize: nat)
    requires p != q
    ensures !(OnPage(i, p, pageSize) && OnPage(i, q, pageSize))
  {
  }

  /** Each index of a non-empty page size lies on page `i / pageSize + 1`. */
  lemma IndexOnItsPage(i: nat, pageSize: nat)
    requires pageSize > 0
    ensures OnPage(i, i / pageSize + 1, pageSize)
  {
  }

  /** Pages `1..n` together cover exactly `[0, n * pageSize)`. */
  lemma {:induction false} PagesCover(n: nat, pageSize: nat)
    ensures forall i :: OnPagesUpTo(i, n, pageSize) <==> 0 <= i < n * pageSize
  {
    if n > 0 {
      PagesCover(n - 1, pageSize);
      assert n * pageSize == (n - 1) * pageSize + pageSize;
      assert IndexRange(n, pageSize) == ((n - 1) * pageSize, n * pageSize);
    }
  }
}
