/**
 Paging when created_at has ties. The query orders by created_at alone, so each page may be cut from another order of
 the rows that tie; when the pages still show every row once.
 */
module PageTies {
  import opened UserCache
  import opened Pages

  function Elems(list: seq<User>): set<User> {
    set u | u in list
  }

  ghost predicate Distinct(list: seq<User>) {
    forall i, j :: 0 <= i < j < |list| ==> list[i] != list[j]
  }

  /** The list shows every row exactly once. */
  ghost predicate Lists(list: seq<User>, rows: set<User>) {
    Distinct(list) && Elems(list) == rows
  }

  /** What ORDER BY created_at DESC may return. */
  ghost predicate IsOrder(rows: set<User>, list: seq<User>) {
    && Lists(list, rows)
    && forall i, j :: 0 <= i < j < |list| ==> list[i].createdAt >= list[j].createdAt
  }

  /** Page 1 cut from the first order, page 2 from the second, and so on, one after the other. */
  function PagesBy(orders: seq<seq<User>>, pageSize: int): seq<User> {
    if orders == [] then []
    else PagesBy(orders[..|orders| - 1], pageSize) + PageOf(orders[|orders| - 1], |orders|, pageSize)
  }

  ghost predicate AreOrders(rows: set<User>, orders: seq<seq<User>>) {
    forall o :: o in orders ==> IsOrder(rows, o)
  }

  /** The announced pages show every row exactly once, however the database breaks the ties of each query. */
  ghost predicate AlwaysCovers(rows: set<User>, pageSize: int) {
    forall orders: seq<seq<User>> :: |orders| == TotalPages(|rows|, pageSize) && AreOrders(rows, orders) ==>
      Lists(PagesBy(orders, pageSize), rows)
  }

  function Newer(rows: set<User>, t: Time): set<User> {
    set u | u in rows && u.createdAt > t
  }

  function NotOlder(rows: set<User>, t: Time): set<User> {
    set u | u in rows && u.createdAt >= t
  }

  /** Rows with one created_at lie on both sides of position b. */
  ghost predicate TieAcross(rows: set<User>, b: int) {
    exists t: Time :: |Newer(rows, t)| < b < |NotOlder(rows, t)|
  }

  // ---------- sets and prefixes ----------

  lemma {:induction false} SubsetSize(a: set<User>, b: set<User>)
    requires a <= b
    ensures |a| <= |b|
    ensures |a| == |b| ==> a == b
    decreases |b|
  {
    if a != {} {
      var u :| u in a;
      SubsetSize(a - {u}, b - {u});
      assert a == (a - {u}) + {u} && b == (b - {u}) + {u};
    }
  }

  lemma {:induction false} DistinctSize(list: seq<User>)
    requires Distinct(list)
    ensures |Elems(list)| == |list|
  {
    if list != [] {
      var init, last := list[..|list| - 1], list[|list| - 1];
      DistinctSize(init);
      assert Elems(list) == Elems(init) + {last};
    }
  }

  /** Rows that come before all others are the first ones in every order. */
  lemma FirstOnes(rows: set<User>, o: seq<User>, up: set<User>)
    requires IsOrder(rows, o) && up <= rows
    requires forall u, v :: u in rows && v in up && u.createdAt >= v.createdAt ==> u in up
    ensures |up| <= |o| && Elems(o[..|up|]) == up
    ensures forall i :: 0 <= i < |o| ==> (o[i] in up <==> i < |up|)
  {
    DistinctSize(o);
    SubsetSize(up, rows);
    var m := |up|;
    forall i | 0 <= i < m ensures o[i] in up {
      if o[i] !in up {
        assert up <= Elems(o[..i]);
        SubsetSize(up, Elems(o[..i]));
        DistinctSize(o[..i]);
      }
    }
    DistinctSize(o[..m]);
    SubsetSize(Elems(o[..m]), up);
    forall i | m <= i < |o| ensures o[i] !in up {
      assert o[i] !in Elems(o[..m]);
    }
  }

  lemma NewerFirst(rows: set<User>, o: seq<User>, t: Time)
    requires IsOrder(rows, o)
    ensures |Newer(rows, t)| <= |NotOlder(rows, t)| <= |o| == |rows|
    ensures Elems(o[..|Newer(rows, t)|]) == Newer(rows, t)
    ensures Elems(o[..|NotOlder(rows, t)|]) == NotOlder(rows, t)
    ensures forall i :: 0 <= i < |o| ==> (o[i].createdAt > t <==> i < |Newer(rows, t)|)
    ensures forall i :: 0 <= i < |o| ==> (o[i].createdAt >= t <==> i < |NotOlder(rows, t)|)
  {
    assert forall i :: 0 <= i < |o| ==> o[i] in Elems(o);
    DistinctSize(o);
    FirstOnes(rows, o, Newer(rows, t));
    FirstOnes(rows, o, NotOlder(rows, t));
    SubsetSize(Newer(rows, t), NotOlder(rows, t));
  }

  /** Where no tie is cut, all orders have the same rows before the cut. */
  lemma CutIsFixed(rows: set<User>, o: seq<User>, p: seq<User>, b: nat)
    requires IsOrder(rows, o) && IsOrder(rows, p)
    requires b <= |rows| && (b < |rows| ==> !TieAcross(rows, b))
    ensures |o| == |p| == |rows| && Elems(o[..b]) == Elems(p[..b])
  {
    DistinctSize(o);
    DistinctSize(p);
    if b == |rows| {
      assert o[..b] == o && p[..b] == p;
    } else if b > 0 {
      var t := o[b - 1].createdAt;
      NewerFirst(rows, o, t);
      NewerFirst(rows, p, t);
      assert |Newer(rows, t)| < b <= |NotOlder(rows, t)|;
    }
  }

  // ---------- no tie across a boundary ----------

  lemma AppendLists(front: seq<User>, o: seq<User>, a: nat, b: nat)
    requires Distinct(o) && a <= b <= |o| && Lists(front, Elems(o[..a]))
    ensures Lists(front + o[a..b], Elems(o[..b]))
  {
    assert o[..a] + o[a..b] == o[..b];
    var all := front + o[a..b];
    forall i, j | 0 <= i < j < |all| ensures all[i] != all[j] {
      if i < |front| <= j {
        assert front[i] in Elems(front) && all[j] == o[a + (j - |front|)];
      }
    }
    forall u ensures u in all <==> u in o[..b] {
      assert u in Elems(front) <==> u in Elems(o[..a]);
    }
  }

  /** Where the pages of one order end. */
  function End(total: nat, size: int, n: nat): (b: nat)
    requires size >= 0
    ensures b <= total
  {
    MulLe(0, n, size);
    Min(n * size, total)
  }

  lemma PageIsSlice(o: seq<User>, pageSize: int, n: nat)
    requires n >= 1
    ensures var a, b := End(|o|, SizeUsed(pageSize), n - 1), End(|o|, SizeUsed(pageSize), n);
            a <= b && PageOf(o, n, pageSize) == o[a..b]
  {
    var size := SizeUsed(pageSize);
    assert n * size == (n - 1) * size + size;
  }

  ghost predicate NoTieAcrossPages(rows: set<User>, size: int) {
    forall k: nat :: k >= 1 ==> !TieAcross(rows, k * size)
  }

  lemma {:induction false} PagesListPrefix(rows: set<User>, orders: seq<seq<User>>, pageSize: int, o: seq<User>)
    requires AreOrders(rows, orders) && IsOrder(rows, o) && NoTieAcrossPages(rows, SizeUsed(pageSize))
    ensures |o| == |rows|
    ensures Lists(PagesBy(orders, pageSize), Elems(o[..End(|o|, SizeUsed(pageSize), |orders|)]))
    decreases |orders|
  {
    DistinctSize(o);
    var size := SizeUsed(pageSize);
    if orders != [] {
      var n, p := |orders|, orders[|orders| - 1];
      assert p in orders;
      PagesListPrefix(rows, orders[..n - 1], pageSize, o);
      DistinctSize(p);
      PageIsSlice(p, pageSize, n);
      var a, b := End(|o|, size, n - 1), End(|o|, size, n);
      EndIsFixed(rows, o, p, size, n - 1);
      EndIsFixed(rows, o, p, size, n);
      AppendLists(PagesBy(orders[..n - 1], pageSize), p, a, b);
    }
  }

  lemma EndIsFixed(rows: set<User>, o: seq<User>, p: seq<User>, size: int, n: nat)
    requires IsOrder(rows, o) && IsOrder(rows, p) && size >= 0 && NoTieAcrossPages(rows, size)
    ensures |o| == |p| == |rows| && Elems(o[..End(|o|, size, n)]) == Elems(p[..End(|o|, size, n)])
  {
    DistinctSize(o);
    DistinctSize(p);
    if n > 0 {
      assert !TieAcross(rows, n * size);
      CutIsFixed(rows, o, p, End(|o|, size, n));
    }
  }

  // ---------- a tie across a boundary ----------

  function Swapped(o: seq<User>, b: nat): seq<User>
    requires 1 <= b < |o|
  {
    o[b - 1 := o[b]][b := o[b - 1]]
  }

  lemma SwappedIsOrder(rows: set<User>, o: seq<User>, b: nat)
    requires IsOrder(rows, o) && 1 <= b < |o| && o[b - 1].createdAt == o[b].createdAt
    ensures IsOrder(rows, Swapped(o, b))
  {
    var p := Swapped(o, b);
    forall u ensures u in p <==> u in o {
      if u in o {
        var i :| 0 <= i < |o| && o[i] == u;
        assert p[if i == b - 1 then b else if i == b then b - 1 else i] == u;
      }
    }
  }

  /** The rows next to the boundary tie. */
  lemma TieAtCut(rows: set<User>, o: seq<User>, b: int)
    requires IsOrder(rows, o) && TieAcross(rows, b)
    ensures 1 <= b < |o| == |rows| && o[b - 1].createdAt == o[b].createdAt
  {
    var t :| |Newer(rows, t)| < b < |NotOlder(rows, t)|;
    NewerFirst(rows, o, t);
    assert o[b - 1].createdAt == t == o[b].createdAt;
  }

  lemma {:induction false} RepeatStays(orders: seq<seq<User>>, pageSize: int, m: nat)
    requires m <= |orders| && !Distinct(PagesBy(orders[..m], pageSize))
    ensures !Distinct(PagesBy(orders, pageSize))
    decreases |orders|
  {
    if m == |orders| {
      assert orders[..m] == orders;
    } else {
      var init := orders[..|orders| - 1];
      assert init[..m] == orders[..m];
      RepeatStays(init, pageSize, m);
      var front, all := PagesBy(init, pageSize), PagesBy(orders, pageSize);
      var i, j :| 0 <= i < j < |front| && front[i] == front[j];
      assert all[i] == all[j];
    }
  }

  /** The last row of page k in one order and the first row of page k + 1 in the other are the same. */
  lemma SameRowTwice(o: seq<User>, p: seq<User>, pageSize: int, k: nat)
    requires 1 <= k && 1 <= k * SizeUsed(pageSize) < |o| && p == Swapped(o, k * SizeUsed(pageSize))
    ensures var left, right := PageOf(o, k, pageSize), PageOf(p, k + 1, pageSize);
            left != [] && right != [] && left[|left| - 1] == right[0]
  {
    var size := SizeUsed(pageSize);
    PageIsSlice(o, pageSize, k);
    PageIsSlice(p, pageSize, k + 1);
    assert k * size == (k - 1) * size + size && (k + 1) * size == k * size + size;
  }

  lemma RepeatsOnce(front: seq<User>, left: seq<User>, right: seq<User>)
    requires left != [] && right != [] && left[|left| - 1] == right[0]
    ensures !Distinct(front + left + right)
  {
    var all := front + left + right;
    assert all[|front| + |left| - 1] == all[|front| + |left|];
  }

  lemma LastTwoPages(orders: seq<seq<User>>, pageSize: int, k: nat)
    requires 1 <= k && |orders| == k + 1
    ensures PagesBy(orders, pageSize)
            == PagesBy(orders[..k - 1], pageSize) + PageOf(orders[k - 1], k, pageSize)
               + PageOf(orders[k], k + 1, pageSize)
  {
    assert orders[..k][..k - 1] == orders[..k - 1];
  }

  lemma CutTwice(orders: seq<seq<User>>, o: seq<User>, p: seq<User>, pageSize: int, k: nat)
    requires 1 <= k < |orders| && orders[k - 1] == o && orders[k] == p
    requires 1 <= k * SizeUsed(pageSize) < |o| && p == Swapped(o, k * SizeUsed(pageSize))
    ensures !Distinct(PagesBy(orders, pageSize))
  {
    SameRowTwice(o, p, pageSize, k);
    var some := orders[..k + 1];
    LastTwoPages(some, pageSize, k);
    RepeatsOnce(PagesBy(some[..k - 1], pageSize), PageOf(o, k, pageSize), PageOf(p, k + 1, pageSize));
    RepeatStays(orders, pageSize, k + 1);
  }

  /** Page k ends with the row that page k + 1 begins with, cut from the order with the two rows swapped. */
  lemma TieRepeats(rows: set<User>, o: seq<User>, pageSize: int, k: nat, n: nat) returns (orders: seq<seq<User>>)
    requires IsOrder(rows, o) && 1 <= k < n && TieAcross(rows, k * SizeUsed(pageSize))
    ensures |orders| == n && AreOrders(rows, orders) && !Distinct(PagesBy(orders, pageSize))
  {
    var b := k * SizeUsed(pageSize);
    TieAtCut(rows, o, b);
    SwappedIsOrder(rows, o, b);
    var p := Swapped(o, b);
    orders := seq(n, i => if i < k then o else p);
    CutTwice(orders, o, p, pageSize, k);
  }

  // ---------- exactly when ----------

  lemma {:induction false} SameOrderPages(orders: seq<seq<User>>, o: seq<User>, pageSize: int)
    requires forall p :: p in orders ==> p == o
    ensures PagesBy(orders, pageSize) == FirstPages(o, pageSize, |orders|)
  {
    if orders != [] {
      assert forall i :: 0 <= i < |orders| ==> orders[i] in orders;
      SameOrderPages(orders[..|orders| - 1], o, pageSize);
    }
  }

  /** One order for all queries: the pages show every row once exactly when they are long enough together. */
  lemma SameOrderCovers(rows: set<User>, o: seq<User>, pageSize: int)
    requires IsOrder(rows, o)
    ensures |o| == |rows|
    ensures var n := TotalPages(|rows|, pageSize);
            Lists(PagesBy(seq(n, _ => o), pageSize), rows) <==> Covers(o, pageSize)
  {
    DistinctSize(o);
    var n := TotalPages(|rows|, pageSize);
    SameOrderPages(seq(n, _ => o), o, pageSize);
    PagesArePrefix(o, pageSize, n);
    var pages := FirstPages(o, pageSize, n);
    if Lists(pages, rows) {
      DistinctSize(pages);
      assert pages == o;
    }
  }

  lemma FactorBounds(k: int, n: int, size: int, total: int)
    requires size >= 1 && 1 <= k * size < total <= n * size
    ensures 1 <= k < n
  {
    if k <= 0 {
      MulLe(k, 0, size);
    } else if k >= n {
      MulLe(n, k, size);
    }
  }

  /** The boundary that a tie crosses comes before the last announced page. */
  lemma TieBeforeLast(rows: set<User>, o: seq<User>, pageSize: int, k: nat)
    requires IsOrder(rows, o) && Covers(o, pageSize) && TieAcross(rows, k * SizeUsed(pageSize))
    ensures |o| == |rows| && 1 <= k < TotalPages(|rows|, pageSize)
  {
    var n := TotalPages(|o|, pageSize);
    TieAtCut(rows, o, k * SizeUsed(pageSize));
    PagesArePrefix(o, pageSize, n);
    FactorBounds(k, n, SizeUsed(pageSize), |o|);
  }

  lemma {:induction false} Oldest(rows: set<User>) returns (u: User)
    requires rows != {}
    ensures u in rows && forall v :: v in rows ==> v.createdAt >= u.createdAt
    decreases |rows|
  {
    u :| u in rows;
    if rows != {u} {
      var v := Oldest(rows - {u});
      u := if v.createdAt < u.createdAt then v else u;
    }
  }

  /** Every table has an order. */
  lemma {:induction false} SomeOrder(rows: set<User>) returns (o: seq<User>)
    ensures IsOrder(rows, o)
    decreases |rows|
  {
    if rows == {} {
      o := [];
    } else {
      var u := Oldest(rows);
      var rest := SomeOrder(rows - {u});
      o := rest + [u];
      assert forall i :: 0 <= i < |rest| ==> rest[i] in Elems(rest);
      assert Elems(o) == Elems(rest) + {u};
    }
  }

  /**
   Whatever order each query gives the rows that tie, the announced pages show every row exactly once if and only if
   the page size fits and no tie lies across a page boundary.
   */
  lemma AlwaysCoversIff(rows: set<User>, pageSize: int)
    ensures AlwaysCovers(rows, pageSize)
            <==> Fits(|rows|, pageSize) && NoTieAcrossPages(rows, SizeUsed(pageSize))
  {
    var n, size := TotalPages(|rows|, pageSize), SizeUsed(pageSize);
    var o := SomeOrder(rows);
    SameOrderCovers(rows, o, pageSize);
    CoversIff(o, pageSize);
    if !Covers(o, pageSize) {
      assert AreOrders(rows, seq(n, _ => o));
    } else if k: nat :| k >= 1 && TieAcross(rows, k * size) {
      TieBeforeLast(rows, o, pageSize, k);
      var orders := TieRepeats(rows, o, pageSize, k, n);
      assert !Lists(PagesBy(orders, pageSize), rows);
    } else {
      PagesArePrefix(o, pageSize, n);
      forall orders: seq<seq<User>> | |orders| == n && AreOrders(rows, orders)
        ensures Lists(PagesBy(orders, pageSize), rows)
      {
        PagesListPrefix(rows, orders, pageSize, o);
        assert o[..End(|o|, size, n)] == o;
      }
    }
  }
}
