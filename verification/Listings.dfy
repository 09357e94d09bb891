/** What a database may reply to an ordered query, and the pages of it. The
    order of a reply is only as fixed as its ORDER BY makes it, so a listing is
    any sequence that has exactly the selected rows and respects the order. */
module Listings {

  ghost predicate StrictOrder<T(!new)>(before: (T, T) -> bool) {
    && (forall a :: !before(a, a))
    && (forall a, b, c :: before(a, b) && before(b, c) ==> before(a, c))
  }

  /** No two different rows tie. */
  ghost predicate TieFree<T(!new)>(before: (T, T) -> bool, rows: set<T>) {
    forall a, b | a in rows && b in rows && a != b :: before(a, b) || before(b, a)
  }

  ghost predicate Lists<T(!new)>(before: (T, T) -> bool, xs: seq<T>, rows: set<T>) {
    && (forall x | x in xs :: x in rows) && (forall x | x in rows :: x in xs)
    && (forall i, j | 0 <= i < j < |xs| :: xs[i] != xs[j] && !before(xs[j], xs[i]))
  }

  function Slice<T>(xs: seq<T>, offset: nat, limit: nat): seq<T> {
    if offset >= |xs| then [] else if offset + limit >= |xs| then xs[offset..] else xs[offset..offset + limit]
  }

  lemma TailLists<T(!new)>(before: (T, T) -> bool, xs: seq<T>, rows: set<T>)
    requires Lists(before, xs, rows) && xs != []
    ensures Lists(before, xs[1..], rows - {xs[0]})
  {
    forall x
      ensures x in xs[1..] <==> x in rows - {xs[0]}
    {
      assert x in xs <==> x in rows;
      assert xs == [xs[0]] + xs[1..];
    }
  }

  /** Without ties the order leaves a database no choice. */
  lemma {:induction false} OneListing<T(!new)>(before: (T, T) -> bool, xs: seq<T>, ys: seq<T>, rows: set<T>)
    requires StrictOrder(before) && TieFree(before, rows)
    requires Lists(before, xs, rows) && Lists(before, ys, rows)
    ensures xs == ys
    decreases |xs|
  {
    ListingCounts(before, xs, rows);
    ListingCounts(before, ys, rows);
    if xs != [] {
      assert xs[0] in ys;
      assert ys[0] in xs;
      assert xs[0] == ys[0];
      TailLists(before, xs, rows);
      TailLists(before, ys, rows);
      OneListing(before, xs[1..], ys[1..], rows - {xs[0]});
      assert xs == [xs[0]] + xs[1..] && ys == [ys[0]] + ys[1..];
    }
  }

  lemma SliceLists<T(!new)>(before: (T, T) -> bool, xs: seq<T>, rows: set<T>, offset: nat, limit: nat)
    requires Lists(before, xs, rows)
    ensures var page := Slice(xs, offset, limit); Lists(before, page, set x | x in page)
  {
  }

  lemma {:induction false} ListingCounts<T(!new)>(before: (T, T) -> bool, xs: seq<T>, rows: set<T>)
    requires Lists(before, xs, rows)
    ensures |rows| == |xs|
    decreases |xs|
  {
    if xs == [] {
      assert rows == {};
    } else {
      assert xs[0] in rows;
      TailLists(before, xs, rows);
      ListingCounts(before, xs[1..], rows - {xs[0]});
    }
  }

  // --------------------------------------------------------- successive pages

  /** The offset of page k. */
  function Offset(limit: nat, k: nat): nat { if k == 0 then 0 else Offset(limit, k - 1) + limit }

  lemma {:induction false} OffsetIs(limit: nat, k: nat)
    ensures Offset(limit, k) == k * limit
  {
    if k > 0 {
      OffsetIs(limit, k - 1);
      assert (k - 1) * limit + limit == k * limit;
    }
  }

  function PageAt<T>(xs: seq<T>, limit: nat, k: nat): seq<T> { Slice(xs, Offset(limit, k), limit) }

  /** The first n pages, one after the other. */
  function FirstPages<T>(xs: seq<T>, limit: nat, n: nat): seq<T> {
    if n == 0 then [] else FirstPages(xs, limit, n - 1) + PageAt(xs, limit, n - 1)
  }

  lemma {:induction false} PagesAddUp<T>(xs: seq<T>, limit: nat, n: nat)
    ensures FirstPages(xs, limit, n) == if Offset(limit, n) <= |xs| then xs[..Offset(limit, n)] else xs
  {
    if n > 0 {
      PagesAddUp(xs, limit, n - 1);
    }
  }

  lemma InSliceIff<T>(xs: seq<T>, i: nat, offset: nat, limit: nat)
    requires i < |xs| && forall k, l | 0 <= k < l < |xs| :: xs[k] != xs[l]
    ensures xs[i] in Slice(xs, offset, limit) <==> offset <= i < offset + limit
  {
    var page := Slice(xs, offset, limit);
    assert forall j | 0 <= j < |page| :: page[j] == xs[offset + j];
    if offset <= i < offset + limit {
      assert page[i - offset] == xs[i];
    }
  }

  lemma {:induction false} PageOf(limit: nat, i: nat, n: nat) returns (p: nat)
    requires i < Offset(limit, n)
    ensures p < n && Offset(limit, p) <= i < Offset(limit, p + 1)
  {
    if i >= Offset(limit, n - 1) { p := n - 1; } else { p := PageOf(limit, i, n - 1); }
  }

  lemma {:induction false} OffsetGrows(limit: nat, k: nat, l: nat)
    requires k <= l
    ensures Offset(limit, k) <= Offset(limit, l)
    decreases l - k
  {
    if k < l {
      OffsetGrows(limit, k, l - 1);
    }
  }

  /** Paging through a listing shows every selected row, in order, and each on
      exactly one page. */
  lemma EveryRowOnOnePage<T(!new)>(before: (T, T) -> bool, xs: seq<T>, rows: set<T>, limit: nat, n: nat, x: T) returns (p: nat)
    requires Lists(before, xs, rows) && Offset(limit, n) >= |xs| && x in rows
    ensures FirstPages(xs, limit, n) == xs
    ensures p < n && forall k: nat :: x in PageAt(xs, limit, k) <==> k == p
  {
    PagesAddUp(xs, limit, n);
    assert x in xs;
    var i :| 0 <= i < |xs| && xs[i] == x;
    p := PageOf(limit, i, n);
    forall k: nat
      ensures x in PageAt(xs, limit, k) <==> k == p
    {
      OnPageIff(xs, limit, i, p, k);
    }
  }

  lemma OnPageIff<T>(xs: seq<T>, limit: nat, i: nat, p: nat, k: nat)
    requires i < |xs| && forall k, l | 0 <= k < l < |xs| :: xs[k] != xs[l]
    requires Offset(limit, p) <= i < Offset(limit, p + 1)
    ensures xs[i] in PageAt(xs, limit, k) <==> k == p
  {
    InSliceIff(xs, i, Offset(limit, k), limit);
    if k < p {
      OffsetGrows(limit, k + 1, p);
    } else if p < k {
      OffsetGrows(limit, p + 1, k);
    }
  }

  // ----------------------------------------------------- an order that can tie

  /** Rows that are not told apart compare alike with every other row. */
  ghost predicate WeakOrder<T(!new)>(before: (T, T) -> bool) {
    && StrictOrder(before)
    && (forall a, b, c :: before(a, b) ==> before(a, c) || before(c, b))
  }

  /** Any two replies to the same query agree if and only if no two selected
      rows tie. */
  lemma ListingIsUniqueIff<T(!new)>(before: (T, T) -> bool, xs: seq<T>, rows: set<T>)
    requires WeakOrder(before) && Lists(before, xs, rows)
    ensures (forall ys :: Lists(before, ys, rows) ==> ys == xs) <==> TieFree(before, rows)
  {
    if TieFree(before, rows) {
      forall ys | Lists(before, ys, rows)
        ensures ys == xs
      {
        OneListing(before, ys, xs, rows);
      }
    } else {
      var a, b :| a in rows && b in rows && a != b && !before(a, b) && !before(b, a);
      var i, j := PlacesOf(before, xs, rows, a, b);
      Swapped(before, xs, rows, i, j);
      assert Lists(before, xs[i := xs[j]][j := xs[i]], rows);
    }
  }

  lemma PlacesOf<T(!new)>(before: (T, T) -> bool, xs: seq<T>, rows: set<T>, a: T, b: T) returns (i: nat, j: nat)
    requires Lists(before, xs, rows) && a in rows && b in rows && a != b
    ensures i < j < |xs| && {xs[i], xs[j]} == {a, b}
  {
    assert a in xs && b in xs;
    i :| i < |xs| && xs[i] == a;
    j :| j < |xs| && xs[j] == b;
    if j < i { i, j := j, i; }
  }

  lemma Swapped<T(!new)>(before: (T, T) -> bool, xs: seq<T>, rows: set<T>, i: nat, j: nat)
    requires WeakOrder(before) && Lists(before, xs, rows)
    requires i < j < |xs| && !before(xs[i], xs[j])
    ensures Lists(before, xs[i := xs[j]][j := xs[i]], rows) && xs[i := xs[j]][j := xs[i]] != xs
  {
    var ys := xs[i := xs[j]][j := xs[i]];
    assert forall k | 0 <= k < |xs| :: xs[k] in rows;
    forall x
      ensures x in ys <==> x in xs
    {
      if x in xs {
        var k :| 0 <= k < |xs| && xs[k] == x;
        assert ys[if k == i then j else if k == j then i else k] == x;
      }
    }
    forall k, l | 0 <= k < l < |ys|
      ensures ys[k] != ys[l] && !before(ys[l], ys[k])
    {
    }
  }

  function Members<T>(xs: seq<T>): set<T> { set x | x in xs }

  /** The rows on either side of place m are told apart. */
  predicate Cut<T>(before: (T, T) -> bool, xs: seq<T>, m: nat) {
    0 < m < |xs| ==> before(xs[m - 1], xs[m])
  }

  lemma CutSeparates<T(!new)>(before: (T, T) -> bool, xs: seq<T>, rows: set<T>, m: nat, i: nat, j: nat)
    requires WeakOrder(before) && Lists(before, xs, rows) && Cut(before, xs, m)
    requires i < m <= j < |xs|
    ensures before(xs[i], xs[j])
  {
    assert before(xs[m - 1], xs[m]);
    assert i < m - 1 ==> !before(xs[m - 1], xs[i]);
    assert before(xs[i], xs[m]);
    assert m < j ==> !before(xs[j], xs[m]);
  }

  lemma {:induction false} DistinctCount<T>(xs: seq<T>)
    requires forall i, j | 0 <= i < j < |xs| :: xs[i] != xs[j]
    ensures |Members(xs)| == |xs|
  {
    if xs != [] {
      var n := |xs| - 1;
      DistinctCount(xs[..n]);
      assert xs == xs[..n] + [xs[n]];
      assert Members(xs) == Members(xs[..n]) + {xs[n]};
    }
  }

  lemma SameSize<T>(a: set<T>, b: set<T>)
    requires a <= b && |a| == |b|
    ensures a == b
  {
    assert b == a + (b - a);
  }

  /** Which rows come before a cut does not depend on the reply. */
  lemma PrefixIsFixed<T(!new)>(before: (T, T) -> bool, xs: seq<T>, ys: seq<T>, rows: set<T>, m: nat)
    requires WeakOrder(before) && Lists(before, xs, rows) && Lists(before, ys, rows)
    requires Cut(before, xs, m) && m <= |xs| && m <= |ys|
    ensures Members(xs[..m]) == Members(ys[..m])
  {
    DistinctCount(xs[..m]);
    DistinctCount(ys[..m]);
    if !(Members(xs[..m]) <= Members(ys[..m])) {
      var i :| 0 <= i < m && xs[i] !in ys[..m];
      assert xs[i] in ys;
      var l :| 0 <= l < |ys| && ys[l] == xs[i];
      assert l >= m;
      forall j | 0 <= j < m
        ensures ys[j] in xs[..m]
      {
        assert ys[j] in xs;
        var k :| 0 <= k < |xs| && xs[k] == ys[j];
        if k >= m {
          CutSeparates(before, xs, rows, m, i, k);
        }
        assert xs[..m][k] == ys[j];
      }
      assert Members(ys[..m]) <= Members(xs[..m]);
      SameSize(Members(ys[..m]), Members(xs[..m]));
    } else {
      SameSize(Members(xs[..m]), Members(ys[..m]));
    }
  }

  /** Where the pages of a listing begin and end, no two rows tie. */
  ghost predicate BoundariesCut<T(!new)>(before: (T, T) -> bool, xs: seq<T>, limit: nat) {
    forall k: nat :: Cut(before, xs, Offset(limit, k))
  }

  lemma PageMembers<T>(xs: seq<T>, limit: nat, k: nat, x: T)
    requires forall i, j | 0 <= i < j < |xs| :: xs[i] != xs[j]
    ensures x in PageAt(xs, limit, k) <==>
            x in xs[..Low(|xs|, Offset(limit, k + 1))] && x !in xs[..Low(|xs|, Offset(limit, k))]
  {
    var a, b := Low(|xs|, Offset(limit, k)), Low(|xs|, Offset(limit, k + 1));
    assert PageAt(xs, limit, k) == xs[a..b];
    assert xs[..b] == xs[..a] + xs[a..b];
    assert forall i | 0 <= i < a :: xs[..a][i] == xs[i];
    assert forall i | 0 <= i < b - a :: xs[a..b][i] == xs[a + i];
  }

  function Low(a: nat, b: nat): nat { if a <= b then a else b }

  /** Which rows each page shows is the same in every reply, so that pages
      fetched one by one cover the rows exactly once, if and only if no tie
      straddles a page boundary. */
  lemma PagesAreFixedIff<T(!new)>(before: (T, T) -> bool, xs: seq<T>, rows: set<T>, limit: nat)
    requires WeakOrder(before) && Lists(before, xs, rows) && limit > 0
    ensures (forall ys, k: nat :: Lists(before, ys, rows) ==> Members(PageAt(ys, limit, k)) == Members(PageAt(xs, limit, k)))
            <==> BoundariesCut(before, xs, limit)
  {
    if BoundariesCut(before, xs, limit) {
      forall ys, k: nat | Lists(before, ys, rows)
        ensures Members(PageAt(ys, limit, k)) == Members(PageAt(xs, limit, k))
      {
        SamePage(before, xs, ys, rows, limit, k);
      }
    } else {
      var k: nat :| !Cut(before, xs, Offset(limit, k));
      var ys := TieMovesARow(before, xs, rows, limit, k);
      var x := xs[Offset(limit, k) - 1];
      assert x in Members(PageAt(ys, limit, k)) && x !in Members(PageAt(xs, limit, k));
    }
  }

  lemma SamePage<T(!new)>(before: (T, T) -> bool, xs: seq<T>, ys: seq<T>, rows: set<T>, limit: nat, k: nat)
    requires WeakOrder(before) && Lists(before, xs, rows) && Lists(before, ys, rows) && BoundariesCut(before, xs, limit)
    ensures Members(PageAt(ys, limit, k)) == Members(PageAt(xs, limit, k))
  {
    ListingCounts(before, xs, rows);
    ListingCounts(before, ys, rows);
    var a, b := Low(|xs|, Offset(limit, k)), Low(|xs|, Offset(limit, k + 1));
    assert Cut(before, xs, Offset(limit, k)) && Cut(before, xs, Offset(limit, k + 1));
    PrefixIsFixed(before, xs, ys, rows, a);
    PrefixIsFixed(before, xs, ys, rows, b);
    forall x
      ensures x in PageAt(ys, limit, k) <==> x in PageAt(xs, limit, k)
    {
      PageMembers(xs, limit, k, x);
      PageMembers(ys, limit, k, x);
      assert x in xs[..a] <==> x in Members(xs[..a]);
      assert x in ys[..a] <==> x in Members(ys[..a]);
      assert x in xs[..b] <==> x in Members(xs[..b]);
      assert x in ys[..b] <==> x in Members(ys[..b]);
    }
  }

  /** A tie across the start of page k: another reply shows there the row that
      this one has already shown, and the row that belongs there on neither. */
  lemma TieMovesARow<T(!new)>(before: (T, T) -> bool, xs: seq<T>, rows: set<T>, limit: nat, k: nat) returns (ys: seq<T>)
    requires WeakOrder(before) && Lists(before, xs, rows) && limit > 0
    requires !Cut(before, xs, Offset(limit, k))
    ensures Lists(before, ys, rows)
    ensures var m := Offset(limit, k);
            && 0 < m < |xs|
            && xs[m - 1] in xs[..m] && xs[m - 1] in PageAt(ys, limit, k) && xs[m - 1] !in PageAt(xs, limit, k)
            && xs[m] in rows && xs[m] !in xs[..m] && xs[m] !in PageAt(ys, limit, k)
  {
    var m := Offset(limit, k);
    Swapped(before, xs, rows, m - 1, m);
    ys := xs[m - 1 := xs[m]][m := xs[m - 1]];
    assert PageAt(ys, limit, k)[0] == xs[m - 1];
    InSliceIff(xs, m - 1, m, limit);
    InSliceIff(ys, m - 1, m, limit);
  }
}
