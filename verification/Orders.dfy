/** Lists as collections: what does not depend on the order of their elements. */
module Orders {
  ghost predicate NoRepeats<T>(xs: seq<T>) {
    forall i, j :: 0 <= i < j < |xs| ==> xs[i] != xs[j]
  }

  lemma {:induction false} CountsOnce<T>(xs: seq<T>, x: T)
    requires NoRepeats(xs)
    ensures multiset(xs)[x] == if x in xs then 1 else 0
  {
    if xs != [] {
      var front, last := xs[..|xs| - 1], xs[|xs| - 1];
      assert xs == front + [last];
      CountsOnce(front, x);
    }
  }

  /** Lists without repetitions that hold the same elements are permutations of each other. */
  lemma SameElements<T>(xs: seq<T>, ys: seq<T>)
    requires NoRepeats(xs) && NoRepeats(ys)
    requires forall x :: x in xs <==> x in ys
    ensures multiset(xs) == multiset(ys)
  {
    forall x ensures multiset(xs)[x] == multiset(ys)[x] {
      CountsOnce(xs, x);
      CountsOnce(ys, x);
    }
  }

  lemma SameCounts<T>(xs: seq<T>, ys: seq<T>, x: T)
    requires multiset(xs) == multiset(ys)
    ensures x in xs <==> x in ys
  {
    assert x in xs <==> x in multiset(xs);
    assert x in ys <==> x in multiset(ys);
  }

  // The list without the element at place i.
  function Dropped<T>(xs: seq<T>, i: nat): seq<T>
    requires i < |xs|
  {
    xs[..i] + xs[i + 1..]
  }

  // The last element stays the last one, unless it is the one taken out.
  lemma DroppedFront<T>(xs: seq<T>, i: nat)
    requires i < |xs|
    ensures var n := |xs| - 1;
            if i == n then Dropped(xs, i) == xs[..n]
            else Dropped(xs, i)[..n - 1] == Dropped(xs[..n], i) && Dropped(xs, i)[n - 1] == xs[n]
  {
  }

  lemma DroppedCounts<T>(xs: seq<T>, i: nat)
    requires i < |xs|
    ensures multiset(Dropped(xs, i)) == multiset(xs) - multiset{xs[i]}
  {
    assert xs == xs[..i] + ([xs[i]] + xs[i + 1..]);
    assert multiset([xs[i]] + xs[i + 1..]) == multiset{xs[i]} + multiset(xs[i + 1..]);
    assert multiset(xs) == multiset(Dropped(xs, i)) + multiset{xs[i]};
  }

  // The last element of one list, found and taken out of the other.
  lemma DropSame<T>(xs: seq<T>, ys: seq<T>) returns (i: nat)
    requires multiset(xs) == multiset(ys) && xs != []
    ensures i < |ys| && ys[i] == xs[|xs| - 1]
    ensures multiset(xs[..|xs| - 1]) == multiset(Dropped(ys, i)) && |ys| == |xs|
  {
    var n := |xs| - 1;
    assert |multiset(xs)| == |multiset(ys)|;
    SameCounts(xs, ys, xs[n]);
    i :| 0 <= i < |ys| && ys[i] == xs[n];
    DroppedCounts(xs, n);
    DroppedCounts(ys, i);
    assert Dropped(xs, n) == xs[..n];
  }
}
