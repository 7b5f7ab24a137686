/**
 Paging through the user list: the repository's window, the clamping in the use case, and the page count in the
 response. Here all queries return the rows in one order; PageTies drops that.
 */
module Pages {
  import UserCache

  /** LIMIT and OFFSET on the ordered rows. */
  function Window<T>(rows: seq<T>, limit: nat, offset: nat): seq<T> {
    if offset >= |rows| then []
    else if offset + limit >= |rows| then rows[offset..]
    else rows[offset..offset + limit]
  }

  /** Page and page size after clamping. */
  function PageUsed(page: int): (p: int)
    ensures p >= 1
  {
    if page < 1 then 1 else page
  }

  function SizeUsed(pageSize: int): (n: int)
    ensures 1 <= n <= 100
  {
    if pageSize < 1 || pageSize > 100 then 10 else pageSize
  }

  function PageOf<T>(rows: seq<T>, page: int, pageSize: int): seq<T> {
    Window(rows, SizeUsed(pageSize), (PageUsed(page) - 1) * SizeUsed(pageSize))
  }

  /** The total_pages of the response, computed from the page size as the caller sent it. */
  function TotalPages(total: nat, pageSize: int): nat {
    if pageSize > 0 then (total + pageSize - 1) / pageSize else 0
  }

  lemma MulLe(a: int, b: int, c: int)
    requires a <= b && c >= 0
    ensures a * c <= b * c
  {
  }

  method GetAll(rows: seq<UserCache.User>, page: int, pageSize: int)
    returns (responses: seq<UserCache.Response>, total: nat)
    ensures total == |rows|
    ensures |responses| == |PageOf(rows, page, pageSize)|
    ensures forall i :: 0 <= i < |responses| ==>
              responses[i] == UserCache.ToResponse(PageOf(rows, page, pageSize)[i])
    ensures var size := if 1 <= pageSize <= 100 then pageSize else 10;
            var first := if page >= 1 then (page - 1) * size else 0;
            && |responses| == (if first >= |rows| then 0 else if first + size >= |rows| then |rows| - first else size)
            && forall i :: 0 <= i < |responses| ==>
                 && 0 <= first + i < |rows|
                 && var u := rows[first + i];
                    responses[i] == UserCache.Response(u.id, u.name, u.email, u.createdAt, u.updatedAt)
  {
    var p, size := page, pageSize;
    if p < 1 {
      p := 1;
    }
    if size < 1 || size > 100 {
      size := 10;
    }
    var offset := (p - 1) * size;
    MulLe(0, p - 1, size);
    var users := Window(rows, size, offset);
    total := |rows|;
    responses := [];
    for i := 0 to |users|
      invariant |responses| == i
      invariant forall k :: 0 <= k < i ==> responses[k] == UserCache.ToResponse(users[k])
    {
      responses := responses + [UserCache.ToResponse(users[i])];
    }
  }

  // ---------- the pages together ----------

  /** Pages 1 to n, one after the other. */
  function FirstPages<T>(rows: seq<T>, pageSize: int, n: nat): seq<T> {
    if n == 0 then [] else FirstPages(rows, pageSize, n - 1) + PageOf(rows, n, pageSize)
  }

  function Min(a: int, b: int): int {
    if a < b then a else b
  }

  /** The first n pages are the first n * size rows, as far as there are any. */
  lemma {:induction false} PagesArePrefix<T>(rows: seq<T>, pageSize: int, n: nat)
    ensures n * SizeUsed(pageSize) >= 0
    ensures FirstPages(rows, pageSize, n) == rows[..Min(n * SizeUsed(pageSize), |rows|)]
  {
    var size := SizeUsed(pageSize);
    if n > 0 {
      PagesArePrefix(rows, pageSize, n - 1);
      var offset := (n - 1) * size;
      assert n * size == offset + size;
      if offset < |rows| {
        var end := Min(offset + size, |rows|);
        assert rows[..offset] + rows[offset..end] == rows[..end];
      }
    }
  }

  lemma CeilingBounds(total: nat, size: int)
    requires size >= 1
    ensures total <= TotalPages(total, size) * size < total + size
  {
  }

  /** Pages 1 to total_pages show every row exactly once and in order. */
  ghost predicate Covers<T>(rows: seq<T>, pageSize: int) {
    FirstPages(rows, pageSize, TotalPages(|rows|, pageSize)) == rows
  }

  /**
   The announced pages are long enough together for every page size from 1 to 100. For a larger one, which is clamped
   to 10 for the window but not for the page count, only if there are at most 10 rows; for one below 1 only if there
   are none.
   */
  predicate Fits(total: nat, pageSize: int) {
    1 <= pageSize <= 100 || (pageSize > 100 && total <= 10) || (pageSize < 1 && total == 0)
  }

  /** When every query returns the rows in the same order, the pages partition the table exactly if the size fits. */
  lemma CoversIff<T>(rows: seq<T>, pageSize: int)
    ensures Covers(rows, pageSize) <==> Fits(|rows|, pageSize)
  {
    var n := TotalPages(|rows|, pageSize);
    PagesArePrefix(rows, pageSize, n);
    if pageSize >= 1 {
      CeilingBounds(|rows|, pageSize);
    }
    if pageSize > 100 {
      LargePage(|rows|, pageSize);
    }
    var k := Min(n * SizeUsed(pageSize), |rows|);
    assert rows[..k] == rows <==> k == |rows|;
  }

  lemma LargeCount(total: nat, pageSize: int, q: nat)
    requires pageSize > 100 && total <= q * pageSize < total + pageSize
    ensures q * 10 >= total <==> total <= 10
  {
    if q >= 2 {
      MulLe(101, pageSize, q - 1);
      assert q * pageSize == pageSize * (q - 1) + pageSize;
    }
  }

  /** Ten rows a page are enough for the announced pages only up to ten rows. */
  lemma LargePage(total: nat, pageSize: int)
    requires pageSize > 100
    ensures TotalPages(total, pageSize) * 10 >= total <==> total <= 10
  {
    CeilingBounds(total, pageSize);
    LargeCount(total, pageSize, TotalPages(total, pageSize));
  }

  /** The window of a page against the number n of pages. */
  lemma WindowSize<T>(rows: seq<T>, page: nat, size: nat, n: nat)
    requires page >= 1 && size >= 1 && |rows| <= n * size < |rows| + size
    ensures (page - 1) * size >= 0
    ensures page < n ==> |Window(rows, size, (page - 1) * size)| == size
    ensures page == n ==> 1 <= |Window(rows, size, (page - 1) * size)| <= size
    ensures page > n ==> Window(rows, size, (page - 1) * size) == []
  {
    var offset := (page - 1) * size;
    assert offset + size == page * size;
    if page < n {
      MulLe(page + 1, n, size);
      assert (page + 1) * size == offset + size + size;
    } else if page > n {
      MulLe(n, page - 1, size);
    }
  }

  /** Every page but the last is full, the last is not empty, and there is nothing beyond it. */
  lemma PageSizes<T>(rows: seq<T>, page: int, pageSize: int)
    requires 1 <= pageSize <= 100 && page >= 1
    ensures page < TotalPages(|rows|, pageSize) ==> |PageOf(rows, page, pageSize)| == pageSize
    ensures page == TotalPages(|rows|, pageSize) ==> 1 <= |PageOf(rows, page, pageSize)| <= pageSize
    ensures page > TotalPages(|rows|, pageSize) ==> PageOf(rows, page, pageSize) == []
  {
    CeilingBounds(|rows|, pageSize);
    WindowSize(rows, page, pageSize, TotalPages(|rows|, pageSize));
  }
}
