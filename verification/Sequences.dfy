/** Lists as the source uses them. */
module Sequences {
  predicate Distinct<T(==)>(xs: seq<T>) {
    forall i, j :: 0 <= i < j < |xs| ==> xs[i] != xs[j]
  }

  predicate Increasing(xs: seq<nat>) {
    forall i, j :: 0 <= i < j < |xs| ==> xs[i] < xs[j]
  }

  lemma DistinctAppend<T>(xs: seq<T>, ys: seq<T>)
    requires Distinct(xs) && Distinct(ys) && forall x :: x in xs ==> x !in ys
    ensures Distinct(xs + ys)
  {
    var all := xs + ys;
    forall i, j | 0 <= i < j < |all|
      ensures all[i] != all[j]
    {
      if i < |xs| <= j {
        assert all[i] in xs && all[j] == ys[j - |xs|] && all[j] in ys;
      }
    }
  }

  ghost function Flatten<T>(xss: seq<seq<T>>): seq<T> {
    if xss == [] then [] else Flatten(xss[..|xss| - 1]) + xss[|xss| - 1]
  }

  // Every occurrence of x goes.
  function Without<T(==)>(xs: seq<T>, x: T): (r: seq<T>)
    ensures x !in r
    ensures forall y :: y in xs && y != x ==> y in r
    ensures forall y :: y in r ==> y in xs
  {
    if xs == [] then [] else (if xs[0] == x then [] else [xs[0]]) + Without(xs[1..], x)
  }

  lemma {:induction false} WithoutDistinct<T>(xs: seq<T>, x: T)
    requires Distinct(xs)
    ensures Distinct(Without(xs, x))
  {
    if xs != [] {
      WithoutDistinct(xs[1..], x);
      assert xs[0] !in xs[1..];
      DistinctAppend(if xs[0] == x then [] else [xs[0]], Without(xs[1..], x));
    }
  }

  // g_slist_remove and g_list_remove: the first occurrence of x goes.
  function RemoveFirst(xs: seq<nat>, x: nat): (r: seq<nat>)
    ensures if x in xs then |r| == |xs| - 1 else r == xs
    ensures forall y :: y in r ==> y in xs
  {
    if xs == [] then [] else if xs[0] == x then xs[1..] else [xs[0]] + RemoveFirst(xs[1..], x)
  }

  lemma {:induction false} RemoveFirstCounts(xs: seq<nat>, x: nat)
    ensures multiset(RemoveFirst(xs, x)) == multiset(xs) - multiset{x}
  {
    if xs != [] {
      assert xs == [xs[0]] + xs[1..];
      if xs[0] != x {
        RemoveFirstCounts(xs[1..], x);
        assert multiset(RemoveFirst(xs, x)) == multiset{xs[0]} + multiset(RemoveFirst(xs[1..], x));
      }
    }
  }

  // In a list without duplicates nothing else goes.
  lemma {:induction false} RemoveFirstDistinct(xs: seq<nat>, x: nat)
    requires Distinct(xs)
    ensures Distinct(RemoveFirst(xs, x))
    ensures forall y :: y in RemoveFirst(xs, x) <==> y in xs && y != x
  {
    if xs != [] {
      RemoveFirstDistinct(xs[1..], x);
      assert xs == [xs[0]] + xs[1..];
      assert xs[0] !in xs[1..];
      if xs[0] != x {
        DistinctAppend([xs[0]], RemoveFirst(xs[1..], x));
      }
    }
  }
}
