/**
 Folding lists, and what such folds owe to the order of the list.

 - Flat replaces every element by the list a function gives for it, which is what a loop that appends to
   a result does. FlatAppend: the fold of two lists in a row. FlatMembers: where an element of the fold
   comes from. FlatPermutes: permuting the list permutes the fold. FlatPointwise: composing folds.
 - LastSome is what a loop that overwrites a variable leaves there: the word of the last element that
   has one. LastSomeMeaning: some element said it. LastSomePermutes: where all agree, order does not
   matter. DisagreementShows: where two disagree, it does.
   LastSomePermutesIff: agreement is exactly what is needed.
 - FlatPositions: which elements a fold that may drop some keeps; LastSomeIsLast: which element had the last word.
 - SameElements and Without: permutations and membership.
 */
module Sequences {
  import opened Wrappers

  /** Each element is replaced by the list `f` gives for it. */
  function Flat<A, B>(xs: seq<A>, f: A -> seq<B>): seq<B> {
    if xs == [] then [] else Flat(xs[..|xs| - 1], f) + f(xs[|xs| - 1])
  }

  /** What the last element that has something to say says. */
  function LastSome<A, B>(xs: seq<A>, f: A -> Option<B>): Option<B> {
    if xs == [] then None
    else if f(xs[|xs| - 1]).Some? then f(xs[|xs| - 1])
    else LastSome(xs[..|xs| - 1], f)
  }

  lemma {:induction false} FlatAppend<A, B>(xs: seq<A>, ys: seq<A>, f: A -> seq<B>)
    ensures Flat(xs + ys, f) == Flat(xs, f) + Flat(ys, f)
    decreases |ys|
  {
    if ys == [] {
      assert xs + ys == xs;
    } else {
      var n := |ys| - 1;
      assert (xs + ys)[..|xs + ys| - 1] == xs + ys[..n];
      FlatAppend(xs, ys[..n], f);
    }
  }

  /** Folding a list whose elements were replaced is folding the composition. */
  lemma {:induction false} FlatPointwise<A, C, B>(xs: seq<A>, ys: seq<C>, f: A -> seq<B>, g: C -> seq<B>)
    requires |xs| == |ys| && forall k :: 0 <= k < |xs| ==> f(xs[k]) == g(ys[k])
    ensures Flat(xs, f) == Flat(ys, g)
    decreases |xs|
  {
    if xs != [] {
      FlatPointwise(xs[..|xs| - 1], ys[..|ys| - 1], f, g);
    }
  }

  lemma FlatOne<A, B>(x: A, f: A -> seq<B>)
    ensures Flat([x], f) == f(x)
  {
    assert [x][..0] == [];
    assert Flat([x], f) == Flat([x][..0], f) + f(x);
  }

  /** An element of the fold comes from an element of the list, and conversely. */
  lemma {:induction false} FlatMembers<A, B>(xs: seq<A>, f: A -> seq<B>, y: B)
    ensures y in Flat(xs, f) <==> exists x :: x in xs && y in f(x)
    decreases |xs|
  {
    if xs != [] {
      var n := |xs| - 1;
      FlatMembers(xs[..n], f, y);
      assert xs == xs[..n] + [xs[n]];
      if y in f(xs[n]) {
        assert xs[n] in xs;
      }
    }
  }

  lemma FlatInsert<A, B>(before: seq<A>, x: A, after: seq<A>, f: A -> seq<B>)
    ensures multiset(Flat(before + [x] + after, f)) == multiset(Flat(before + after, f)) + multiset(f(x))
  {
    FlatAppend(before, after, f);
    FlatAppend(before + [x], after, f);
    FlatAppend(before, [x], f);
    FlatOne(x, f);
  }

  /** Taking one occurrence of `x` out of a list. */
  lemma Without<A>(ys: seq<A>, x: A) returns (before: seq<A>, after: seq<A>)
    requires x in multiset(ys)
    ensures ys == before + [x] + after
    ensures multiset(before + after) == multiset(ys) - multiset{x}
  {
    var k :| 0 <= k < |ys| && ys[k] == x;
    before, after := ys[..k], ys[k + 1..];
    assert ys == before + [x] + after;
  }

  /** Permuting the list permutes the fold. */
  lemma {:induction false} FlatPermutes<A, B>(xs: seq<A>, ys: seq<A>, f: A -> seq<B>)
    requires multiset(xs) == multiset(ys)
    ensures multiset(Flat(xs, f)) == multiset(Flat(ys, f))
    decreases |xs|
  {
    if xs == [] {
      assert |multiset(ys)| == |ys|;
    } else {
      var n := |xs| - 1;
      assert xs == xs[..n] + [xs[n]];
      assert xs[n] in multiset(ys);
      var before, after := Without(ys, xs[n]);
      FlatPermutes(xs[..n], before + after, f);
      FlatInsert(before, xs[n], after, f);
    }
  }

  lemma {:induction false} LastSomeMeaning<A, B>(xs: seq<A>, f: A -> Option<B>)
    ensures LastSome(xs, f) == None ==> forall x :: x in xs ==> f(x) == None
    ensures LastSome(xs, f).Some? ==> exists x :: x in xs && f(x) == LastSome(xs, f)
    decreases |xs|
  {
    if xs != [] {
      var n := |xs| - 1;
      LastSomeMeaning(xs[..n], f);
      assert xs == xs[..n] + [xs[n]];
      if f(xs[n]).Some? {
        assert xs[n] in xs;
      }
    }
  }

  /** Everyone who has something to say says the same. */
  ghost predicate Agree<A, B>(xs: seq<A>, f: A -> Option<B>) {
    forall x, y :: x in xs && y in xs && f(x).Some? && f(y).Some? ==> f(x) == f(y)
  }

  /** Where all agree, who comes last does not matter. */
  lemma LastSomePermutes<A, B>(xs: seq<A>, ys: seq<A>, f: A -> Option<B>)
    requires forall x :: x in xs <==> x in ys
    requires Agree(xs, f)
    ensures LastSome(xs, f) == LastSome(ys, f)
  {
    LastSomeMeaning(xs, f);
    LastSomeMeaning(ys, f);
  }

  /** Where two disagree, it does: agreement is necessary as well. */
  lemma DisagreementShows<A, B>(x: A, y: A, f: A -> Option<B>)
    requires f(x).Some? && f(y).Some? && f(x) != f(y)
    ensures LastSome([x, y], f) != LastSome([y, x], f)
  {
  }

  /** An element can be brought to the end. */
  lemma CanComeLast<A, B>(xs: seq<A>, x: A, f: A -> Option<B>) returns (ys: seq<A>)
    requires x in xs && f(x).Some?
    ensures multiset(ys) == multiset(xs) && LastSome(ys, f) == f(x)
  {
    var before, after := Without(xs, x);
    ys := before + after + [x];
  }

  /** `at` are positions of a list of length `n`, in order. */
  ghost predicate Positions(at: seq<nat>, n: nat) {
    && (forall k :: 0 <= k < |at| ==> at[k] < n)
    && (forall j, k :: 0 <= j < k < |at| ==> at[j] < at[k])
  }

  /** The elements at these positions are the ones that a fold keeps, in this form. */
  ghost predicate KeptAt<A, B>(xs: seq<A>, f: A -> seq<B>, at: seq<nat>, kept: seq<B>) {
    && |at| == |kept| && Positions(at, |xs|)
    && (forall k :: 0 <= k < |at| ==> f(xs[at[k]]) == [kept[k]])
    && (forall i: nat :: i in at <==> i < |xs| && f(xs[i]) != [])
  }

  /** Where the elements of a fold that keeps, changes or drops each element come from. */
  lemma {:induction false} FlatPositions<A, B>(xs: seq<A>, f: A -> seq<B>) returns (at: seq<nat>)
    requires forall x :: x in xs ==> |f(x)| <= 1
    ensures KeptAt(xs, f, at, Flat(xs, f))
    decreases |xs|
  {
    if xs == [] {
      at := [];
    } else {
      var n := |xs| - 1;
      assert xs == xs[..n] + [xs[n]];
      var before := FlatPositions(xs[..n], f);
      at := if f(xs[n]) == [] then before else before + [n];
      KeptOneMore(xs[..n], xs[n], f, before, Flat(xs[..n], f));
    }
  }

  lemma KeptOneMore<A, B>(xs: seq<A>, x: A, f: A -> seq<B>, at: seq<nat>, kept: seq<B>)
    requires KeptAt(xs, f, at, kept) && |f(x)| <= 1
    ensures f(x) == [] ==> KeptAt(xs + [x], f, at, kept + f(x))
    ensures f(x) != [] ==> KeptAt(xs + [x], f, at + [|xs|], kept + f(x))
  {
    if f(x) == [] {
      assert kept + f(x) == kept;
    } else {
      assert f(x) == [f(x)[0]];
      assert forall i: nat :: i in at + [|xs|] <==> i in at || i == |xs|;
    }
  }

  /** The last element that has something to say, or none has. */
  ghost predicate SaidLast<A, B>(xs: seq<A>, f: A -> Option<B>, default: B, said: B) {
    || (exists k :: 0 <= k < |xs| && f(xs[k]) == Some(said) && SilentAfter(xs, f, k))
    || (said == default && forall k :: 0 <= k < |xs| ==> f(xs[k]) == None)
  }

  ghost predicate SilentAfter<A, B>(xs: seq<A>, f: A -> Option<B>, k: nat) {
    forall j :: k < j < |xs| ==> f(xs[j]) == None
  }

  lemma {:induction false} LastSomeIsLast<A, B>(xs: seq<A>, f: A -> Option<B>) returns (k: nat)
    ensures LastSome(xs, f) == None ==> forall j :: 0 <= j < |xs| ==> f(xs[j]) == None
    ensures LastSome(xs, f).Some? ==> k < |xs| && f(xs[k]) == LastSome(xs, f) && SilentAfter(xs, f, k)
    decreases |xs|
  {
    k := 0;
    if xs != [] {
      var n := |xs| - 1;
      k := LastSomeIsLast(xs[..n], f);
      k := if f(xs[n]).Some? then n else k;
    }
  }

  /** A value that a loop overwrites is the same for every order of the list iff all who set it set the same. */
  lemma LastSomePermutesIff<A, B>(xs: seq<A>, f: A -> Option<B>)
    ensures (forall ys :: multiset(ys) == multiset(xs) ==> LastSome(ys, f) == LastSome(xs, f)) <==> Agree(xs, f)
  {
    if Agree(xs, f) {
      forall ys | multiset(ys) == multiset(xs) ensures LastSome(ys, f) == LastSome(xs, f) {
        SameElements(xs, ys);
        LastSomePermutes(xs, ys, f);
      }
    } else {
      var x, y :| x in xs && y in xs && f(x).Some? && f(y).Some? && f(x) != f(y);
      var endX := CanComeLast(xs, x, f);
      var endY := CanComeLast(xs, y, f);
    }
  }

  lemma SameElements<A>(xs: seq<A>, ys: seq<A>)
    requires multiset(xs) == multiset(ys)
    ensures |xs| == |ys| && forall x :: x in xs <==> x in ys
  {
    assert |multiset(xs)| == |xs| && |multiset(ys)| == |ys|;
    assert forall x :: x in xs <==> x in multiset(xs);
    assert forall x :: x in ys <==> x in multiset(ys);
  }

  lemma NothingIn<T>(xs: seq<T>)
    ensures xs == [] <==> forall x :: x !in xs
  {
    if xs != [] {
      assert xs[0] in xs;
    }
  }
}
