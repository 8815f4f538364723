/**
 sort.SliceStable: which list it yields, whatever algorithm is used.

 - Sorted is insertion sort, the model of the library call.
 - WeakOrder: what a comparison function must be for sorting to make sense; Louder and EarlierCheck of `WatchDiff`
   are such orders.
 - Ordered: no element precedes an earlier one. TiedWith: the elements that tie with a given one, in list order;
   a sort is stable if it changes none of these lists.
 - SortedIsStable: Sorted is a permutation, ordered and stable.
 - OneStableSort: two lists that are ordered and have the same ties in the same order are equal.
 */
module StableSort {

  type Order<!T> = (T, T) -> bool

  /** `x` goes behind everything that it need not precede. */
  function Insert<T>(xs: seq<T>, x: T, before: Order<T>): seq<T> {
    if xs != [] && before(x, xs[|xs| - 1]) then Insert(xs[..|xs| - 1], x, before) + [xs[|xs| - 1]] else xs + [x]
  }

  function Sorted<T>(xs: seq<T>, before: Order<T>): seq<T> {
    if xs == [] then [] else Insert(Sorted(xs[..|xs| - 1], before), xs[|xs| - 1], before)
  }

  /** A strict weak order: what neither precedes nor follows is equivalent. */
  ghost predicate WeakOrder<T(!new)>(before: Order<T>) {
    && (forall x :: !before(x, x))
    && (forall x, y, z :: before(x, y) && before(y, z) ==> before(x, z))
    && (forall x, y, z :: Tied(before, x, y) && Tied(before, y, z) ==> Tied(before, x, z))
  }

  predicate Tied<T>(before: Order<T>, x: T, y: T) {
    !before(x, y) && !before(y, x)
  }

  predicate Ordered<T>(xs: seq<T>, before: Order<T>) {
    forall i, j :: 0 <= i < j < |xs| ==> !before(xs[j], xs[i])
  }

  /** The elements tied with `e`, in the order of the list. */
  function TiedWith<T>(xs: seq<T>, e: T, before: Order<T>): seq<T> {
    if xs == [] then []
    else TiedWith(xs[..|xs| - 1], e, before) + if Tied(before, e, xs[|xs| - 1]) then [xs[|xs| - 1]] else []
  }

  lemma {:induction false} InsertPermutes<T>(xs: seq<T>, x: T, before: Order<T>)
    ensures multiset(Insert(xs, x, before)) == multiset(xs + [x])
    decreases |xs|
  {
    if xs != [] && before(x, xs[|xs| - 1]) {
      InsertPermutes(xs[..|xs| - 1], x, before);
      assert xs == xs[..|xs| - 1] + [xs[|xs| - 1]];
    }
  }

  lemma NotBefore<T(!new)>(x: T, y: T, z: T, before: Order<T>)
    requires WeakOrder(before) && !before(x, y) && !before(y, z)
    ensures !before(x, z)
  {
    if !before(y, x) && !before(z, y) {
      assert Tied(before, x, y) && Tied(before, y, z);
      assert Tied(before, x, z);
    }
  }

  lemma {:induction false} InsertOrders<T(!new)>(xs: seq<T>, x: T, before: Order<T>)
    requires WeakOrder(before) && Ordered(xs, before)
    ensures Ordered(Insert(xs, x, before), before)
    decreases |xs|
  {
    if xs != [] {
      var n := |xs| - 1;
      if before(x, xs[n]) {
        InsertOrders(xs[..n], x, before);
        InsertPermutes(xs[..n], x, before);
        var r := Insert(xs[..n], x, before);
        forall i | 0 <= i < |r| ensures !before(xs[n], r[i]) {
          assert r[i] in multiset(xs[..n] + [x]);
        }
      } else {
        forall i | 0 <= i < n ensures !before(x, xs[i]) {
          NotBefore(x, xs[n], xs[i], before);
        }
      }
    }
  }

  lemma {:induction false} TiedAppend<T>(xs: seq<T>, ys: seq<T>, e: T, before: Order<T>)
    ensures TiedWith(xs + ys, e, before) == TiedWith(xs, e, before) + TiedWith(ys, e, before)
    decreases |ys|
  {
    if ys == [] {
      assert xs + ys == xs;
    } else {
      assert (xs + ys)[..|xs + ys| - 1] == xs + ys[..|ys| - 1];
      TiedAppend(xs, ys[..|ys| - 1], e, before);
    }
  }

  /** Inserting behind the elements it is tied with keeps their order. */
  lemma {:induction false} InsertIsStable<T(!new)>(xs: seq<T>, x: T, e: T, before: Order<T>)
    requires WeakOrder(before)
    ensures TiedWith(Insert(xs, x, before), e, before) == TiedWith(xs + [x], e, before)
    decreases |xs|
  {
    if xs != [] && before(x, xs[|xs| - 1]) {
      var n := |xs| - 1;
      InsertIsStable(xs[..n], x, e, before);
      assert xs == xs[..n] + [xs[n]];
      TiedAppend(xs[..n], [x], e, before);
      TiedAppend(xs[..n], [xs[n]], e, before);
      TiedAppend(xs, [x], e, before);
      TiedAppend(Insert(xs[..n], x, before), [xs[n]], e, before);
      assert !(Tied(before, e, x) && Tied(before, e, xs[n])) by {
        assert Tied(before, e, x) ==> Tied(before, x, e);
      }
    }
  }

  /** The sorted list is a permutation in order, and ties keep the order they had. */
  lemma {:induction false} SortedIsStable<T(!new)>(xs: seq<T>, before: Order<T>)
    requires WeakOrder(before)
    ensures multiset(Sorted(xs, before)) == multiset(xs) && Ordered(Sorted(xs, before), before)
    ensures forall e :: TiedWith(Sorted(xs, before), e, before) == TiedWith(xs, e, before)
    decreases |xs|
  {
    if xs != [] {
      var n := |xs| - 1;
      SortedIsStable(xs[..n], before);
      InsertPermutes(Sorted(xs[..n], before), xs[n], before);
      InsertOrders(Sorted(xs[..n], before), xs[n], before);
      assert xs == xs[..n] + [xs[n]];
      forall e ensures TiedWith(Sorted(xs, before), e, before) == TiedWith(xs, e, before) {
        InsertIsStable(Sorted(xs[..n], before), xs[n], e, before);
        TiedAppend(Sorted(xs[..n], before), [xs[n]], e, before);
        TiedAppend(xs[..n], [xs[n]], e, before);
      }
    }
  }

  lemma {:induction false} TiedMembers<T>(xs: seq<T>, e: T, x: T, before: Order<T>)
    ensures x in TiedWith(xs, e, before) <==> x in xs && Tied(before, e, x)
    decreases |xs|
  {
    if xs != [] {
      TiedMembers(xs[..|xs| - 1], e, x, before);
      assert xs == xs[..|xs| - 1] + [xs[|xs| - 1]];
    }
  }

  /** What ties is in the same order in both. */
  ghost predicate SameTies<T(!new)>(a: seq<T>, b: seq<T>, before: Order<T>) {
    forall e :: TiedWith(a, e, before) == TiedWith(b, e, before)
  }

  /** Two orderings of one list that keep ties in the same order are the same: there is one stable sort. */
  lemma {:induction false} OneStableSort<T(!new)>(a: seq<T>, b: seq<T>, before: Order<T>)
    requires WeakOrder(before) && Ordered(a, before) && Ordered(b, before) && |a| == |b|
    requires SameTies(a, b, before)
    ensures a == b
    decreases |a|
  {
    if a != [] {
      var n := |a| - 1;
      SameLast(a, b, before);
      assert a == a[..n] + [a[n]] && b == b[..n] + [b[n]];
      forall e ensures TiedWith(a[..n], e, before) == TiedWith(b[..n], e, before) {
        assert TiedWith(a, e, before) == TiedWith(b, e, before);
        var last := if Tied(before, e, a[n]) then [a[n]] else [];
        var u, v := TiedWith(a[..n], e, before), TiedWith(b[..n], e, before);
        assert TiedWith(a, e, before) == u + last && TiedWith(b, e, before) == v + last;
        assert |u + last| == |v + last| && u == (u + last)[..|u|] && v == (v + last)[..|v|];
      }
      OneStableSort(a[..n], b[..n], before);
    }
  }

  lemma {:induction false} SameLast<T(!new)>(a: seq<T>, b: seq<T>, before: Order<T>)
    requires WeakOrder(before) && Ordered(a, before) && Ordered(b, before) && |a| == |b| > 0
    requires SameTies(a, b, before)
    ensures a[|a| - 1] == b[|b| - 1]
  {
    var x, y := a[|a| - 1], b[|b| - 1];
    TiedMembers(a, x, x, before);
    TiedMembers(b, x, x, before);
    TiedMembers(a, y, y, before);
    TiedMembers(b, y, y, before);
    assert x in b && y in a;
    assert Tied(before, x, y) && Tied(before, x, x);
    var u, v := TiedWith(a, x, before), TiedWith(b, x, before);
    assert u == TiedWith(a[..|a| - 1], x, before) + [x];
    assert v == TiedWith(b[..|b| - 1], x, before) + [y];
    assert u[|u| - 1] == x && v[|v| - 1] == y;
  }

  lemma SameTiesAsSorted<T(!new)>(xs: seq<T>, before: Order<T>)
    requires WeakOrder(before)
    ensures SameTies(Sorted(xs, before), xs, before) && |Sorted(xs, before)| == |xs|
    ensures Ordered(Sorted(xs, before), before)
  {
    SortedIsStable(xs, before);
    assert |multiset(Sorted(xs, before))| == |multiset(xs)|;
  }

  lemma SameTiesTrans<T(!new)>(a: seq<T>, b: seq<T>, c: seq<T>, before: Order<T>)
    requires SameTies(a, b, before)
    ensures SameTies(b, a, before) && (SameTies(b, c, before) ==> SameTies(a, c, before))
  {
    forall e ensures TiedWith(b, e, before) == TiedWith(a, e, before) {
    }
    if SameTies(b, c, before) {
      forall e ensures TiedWith(a, e, before) == TiedWith(c, e, before) {
        assert TiedWith(b, e, before) == TiedWith(c, e, before);
      }
    }
  }

  /** Two lists of one length are sorted to the same iff what ties is in the same order in both. */
  lemma {:induction false} SortsEqualIff<T(!new)>(a: seq<T>, b: seq<T>, before: Order<T>)
    requires WeakOrder(before) && |a| == |b|
    ensures Sorted(a, before) == Sorted(b, before) <==> SameTies(a, b, before)
  {
    var sa, sb := Sorted(a, before), Sorted(b, before);
    SameTiesAsSorted(a, before);
    SameTiesAsSorted(b, before);
    if SameTies(a, b, before) {
      SameTiesTrans(sa, a, b, before);
      SameTiesTrans(sb, b, sb, before);
      SameTiesTrans(sa, b, sb, before);
      OneStableSort(sa, sb, before);
    }
    if sa == sb {
      SameTiesTrans(sa, a, b, before);
      SameTiesTrans(a, sa, b, before);
    }
  }

  lemma TiedWithOne<T>(x: T, e: T, before: Order<T>)
    ensures TiedWith([x], e, before) == if Tied(before, e, x) then [x] else []
  {
    assert [x][..0] == [];
    assert TiedWith([x], e, before) == TiedWith([x][..0], e, before) + if Tied(before, e, x) then [x] else [];
  }
}
