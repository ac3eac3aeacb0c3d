/** The contract of Python's sorted: a stable ordering of the same elements. */
module Sorting {
  ghost predicate TotalOn<T(!new)>(leq: (T, T) -> bool) {
    && (forall x, y :: leq(x, y) || leq(y, x))
    && (forall x, y, z :: leq(x, y) && leq(y, z) ==> leq(x, z))
  }

  predicate Sorted<T>(xs: seq<T>, leq: (T, T) -> bool) {
    forall i, j :: 0 <= i < j < |xs| ==> leq(xs[i], xs[j])
  }

  /** Puts x before the first strictly greater element, after every equal one. */
  function Insert<T>(x: T, xs: seq<T>, leq: (T, T) -> bool): (r: seq<T>)
    ensures multiset(r) == multiset(xs) + multiset{x}
  {
    if xs == [] then [x]
    else if leq(xs[|xs| - 1], x) then xs + [x]
    else
      assert xs == xs[..|xs| - 1] + [xs[|xs| - 1]];
      Insert(x, xs[..|xs| - 1], leq) + [xs[|xs| - 1]]
  }

  function Sort<T>(xs: seq<T>, leq: (T, T) -> bool): (r: seq<T>)
    ensures multiset(r) == multiset(xs)
  {
    if xs == [] then []
    else
      assert xs == xs[..|xs| - 1] + [xs[|xs| - 1]];
      Insert(xs[|xs| - 1], Sort(xs[..|xs| - 1], leq), leq)
  }

  lemma InMultiset<T>(x: T, xs: seq<T>, ys: seq<T>)
    requires multiset(xs) == multiset(ys)
    ensures x in xs <==> x in ys
  {
    assert x in xs <==> x in multiset(xs);
    assert x in ys <==> x in multiset(ys);
  }

  lemma SameLength<T>(xs: seq<T>, ys: seq<T>)
    requires multiset(xs) == multiset(ys)
    ensures |xs| == |ys|
  {
    assert |multiset(xs)| == |xs| && |multiset(ys)| == |ys|;
  }

  lemma {:induction false} InsertSorted<T(!new)>(x: T, xs: seq<T>, leq: (T, T) -> bool)
    requires TotalOn(leq) && Sorted(xs, leq)
    ensures Sorted(Insert(x, xs, leq), leq)
  {
    if xs != [] && !leq(xs[|xs| - 1], x) {
      var front, last := xs[..|xs| - 1], xs[|xs| - 1];
      InsertSorted(x, front, leq);
      var r := Insert(x, front, leq);
      forall i | 0 <= i < |r| ensures leq(r[i], last) {
        Inserted(x, front, leq, r[i]);
      }
    } else if xs != [] {
      AllBelow(xs, x, leq);
    }
  }

  lemma Inserted<T>(x: T, xs: seq<T>, leq: (T, T) -> bool, y: T)
    requires y in Insert(x, xs, leq)
    ensures y == x || y in xs
  {
    hide Insert;
    assert y in multiset(Insert(x, xs, leq));
  }

  /** What the last element is below, all are below. */
  lemma AllBelow<T(!new)>(xs: seq<T>, x: T, leq: (T, T) -> bool)
    requires TotalOn(leq) && Sorted(xs, leq) && xs != [] && leq(xs[|xs| - 1], x)
    ensures forall i :: 0 <= i < |xs| ==> leq(xs[i], x)
  {
    forall i | 0 <= i < |xs| - 1 ensures leq(xs[i], x) {
      assert leq(xs[i], xs[|xs| - 1]);
    }
  }

  lemma {:induction false} SortSorted<T(!new)>(xs: seq<T>, leq: (T, T) -> bool)
    requires TotalOn(leq)
    ensures Sorted(Sort(xs, leq), leq)
  {
    if xs != [] {
      SortSorted(xs[..|xs| - 1], leq);
      InsertSorted(xs[|xs| - 1], Sort(xs[..|xs| - 1], leq), leq);
    }
  }

  /** Two elements of xs that each precede the other are the same element. */
  ghost predicate AntisymmetricOn<T>(xs: seq<T>, leq: (T, T) -> bool) {
    forall x, y :: x in xs && y in xs && leq(x, y) && leq(y, x) ==> x == y
  }

  lemma SameLast<T(!new)>(xs: seq<T>, ys: seq<T>, leq: (T, T) -> bool)
    requires xs != [] && ys != [] && multiset(xs) == multiset(ys)
    requires Sorted(xs, leq) && Sorted(ys, leq) && AntisymmetricOn(xs, leq)
    ensures xs[|xs| - 1] == ys[|ys| - 1]
  {
    var x, y := xs[|xs| - 1], ys[|ys| - 1];
    InMultiset(x, xs, ys);
    InMultiset(y, xs, ys);
    if x != y {
      var i :| 0 <= i < |ys| && ys[i] == x;
      var j :| 0 <= j < |xs| && xs[j] == y;
      assert false;
    }
  }

  lemma FrontsAgree<T>(xs: seq<T>, ys: seq<T>)
    requires |xs| == |ys| > 0 && multiset(xs) == multiset(ys) && xs[|xs| - 1] == ys[|xs| - 1]
    ensures multiset(xs[..|xs| - 1]) == multiset(ys[..|xs| - 1])
  {
    WithoutLast(xs);
    WithoutLast(ys);
  }

  lemma WithoutLast<T>(xs: seq<T>)
    requires xs != []
    ensures multiset(xs[..|xs| - 1]) == multiset(xs) - multiset{xs[|xs| - 1]}
  {
    assert xs == xs[..|xs| - 1] + [xs[|xs| - 1]];
  }

  lemma {:induction false} SortedUnique<T(!new)>(xs: seq<T>, ys: seq<T>, leq: (T, T) -> bool)
    requires multiset(xs) == multiset(ys)
    requires Sorted(xs, leq) && Sorted(ys, leq) && AntisymmetricOn(xs, leq)
    ensures xs == ys
  {
    SameLength(xs, ys);
    if xs != [] {
      SameLast(xs, ys, leq);
      FrontsAgree(xs, ys);
      var front, front' := xs[..|xs| - 1], ys[..|xs| - 1];
      assert AntisymmetricOn(front, leq) by {
        forall x | x in front ensures x in xs {}
      }
      SortedUnique(front, front', leq);
      assert xs == front + [xs[|xs| - 1]] && ys == front' + [xs[|xs| - 1]];
    }
  }

  /** Where no two distinct elements tie, sorting forgets the input order. */
  lemma SortForgetsOrder<T(!new)>(xs: seq<T>, ys: seq<T>, leq: (T, T) -> bool)
    requires TotalOn(leq) && multiset(xs) == multiset(ys) && AntisymmetricOn(xs, leq)
    ensures Sort(xs, leq) == Sort(ys, leq)
  {
    SortSorted(xs, leq);
    SortSorted(ys, leq);
    forall x | x in Sort(xs, leq)
      ensures x in xs
    {
      InMultiset(x, Sort(xs, leq), xs);
    }
    SortedUnique(Sort(xs, leq), Sort(ys, leq), leq);
  }

  // ---- lists without repetition ----

  predicate Distinct<T(==)>(xs: seq<T>) {
    forall i, j :: 0 <= i < j < |xs| ==> xs[i] != xs[j]
  }

  lemma DistinctExtend<T>(xs: seq<T>, x: T)
    ensures Distinct(xs + [x]) <==> Distinct(xs) && x !in xs
  {
    var all := xs + [x];
    assert forall i :: 0 <= i < |xs| ==> all[i] == xs[i];
    if Distinct(all) {
      assert all[|xs|] == x;
    }
  }

  /** Distinctness is a matter of counts, not of order. */
  lemma {:induction false} DistinctCounts<T>(xs: seq<T>)
    ensures Distinct(xs) <==> forall x :: x in xs ==> multiset(xs)[x] == 1
  {
    if xs != [] {
      var front, last := xs[..|xs| - 1], xs[|xs| - 1];
      assert xs == front + [last];
      DistinctExtend(front, last);
      DistinctCounts(front);
      assert multiset(xs) == multiset(front) + multiset{last};
      if Distinct(xs) {
        assert multiset(front)[last] == 0;
      } else if Distinct(front) {
        assert last in multiset(front);
        assert last in xs && multiset(xs)[last] >= 2;
      } else {
        var x :| x in front && multiset(front)[x] != 1;
        assert x in multiset(front);
        assert x in xs && multiset(xs)[x] >= 2;
      }
    }
  }

  lemma DistinctForgetsOrder<T>(xs: seq<T>, ys: seq<T>)
    requires multiset(xs) == multiset(ys)
    ensures Distinct(xs) <==> Distinct(ys)
  {
    DistinctCounts(xs);
    DistinctCounts(ys);
    forall x ensures x in xs <==> x in ys {
      InMultiset(x, xs, ys);
    }
  }

  lemma SameMembersSameCounts<T>(xs: seq<T>, ys: seq<T>)
    requires Distinct(xs) && Distinct(ys) && forall x :: x in xs <==> x in ys
    ensures multiset(xs) == multiset(ys)
  {
    DistinctCounts(xs);
    DistinctCounts(ys);
    forall x ensures multiset(xs)[x] == multiset(ys)[x] {
      assert x in xs <==> multiset(xs)[x] > 0;
      assert x in ys <==> multiset(ys)[x] > 0;
    }
  }

  function Map<A, B>(f: A -> B, xs: seq<A>): (r: seq<B>)
    ensures |r| == |xs|
  {
    seq(|xs|, i requires 0 <= i < |xs| => f(xs[i]))
  }

  lemma Without<T>(xs: seq<T>, k: nat)
    requires k < |xs|
    ensures multiset(xs[..k] + xs[k + 1..]) == multiset(xs) - multiset{xs[k]}
  {
    assert xs == xs[..k] + [xs[k]] + xs[k + 1..];
  }

  lemma MapWithout<A, B>(f: A -> B, xs: seq<A>, k: nat)
    requires k < |xs|
    ensures multiset(Map(f, xs)) == multiset(Map(f, xs[..k] + xs[k + 1..])) + multiset{f(xs[k])}
  {
    var ys := Map(f, xs);
    assert Map(f, xs[..k] + xs[k + 1..]) == ys[..k] + ys[k + 1..];
    Without(ys, k);
    assert ys[k] in multiset(ys);
  }

  lemma RestsAgree<T>(xs: seq<T>, ys: seq<T>, k: nat)
    requires multiset(xs) == multiset(ys) && xs != [] && k < |ys| && ys[k] == xs[0]
    ensures multiset(xs[..0] + xs[1..]) == multiset(ys[..k] + ys[k + 1..])
    ensures |xs[..0] + xs[1..]| < |xs|
  {
    Without(xs, 0);
    Without(ys, k);
  }

  /** The images of a reordered list are the reordered images. */
  lemma {:induction false} MapForgetsOrder<A, B>(f: A -> B, xs: seq<A>, ys: seq<A>)
    requires multiset(xs) == multiset(ys)
    ensures multiset(Map(f, xs)) == multiset(Map(f, ys))
    decreases |xs|
  {
    SameLength(xs, ys);
    if xs != [] {
      InMultiset(xs[0], xs, ys);
      var k :| 0 <= k < |ys| && ys[k] == xs[0];
      hide Map;
      RestsAgree(xs, ys, k);
      MapForgetsOrder(f, xs[..0] + xs[1..], ys[..k] + ys[k + 1..]);
      MapWithout(f, xs, 0);
      MapWithout(f, ys, k);
    } else {
      assert ys == xs;
    }
  }
}
