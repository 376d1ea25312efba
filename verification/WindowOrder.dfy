/**
  The order of an application's windows in src/shell-app.c: shell_app_compare_windows and the stable sort
  shell_app_get_windows makes with it. A window list holds indices into a table of windows.
 */
module WindowOrder {
  import opened Wrappers
  import opened Sequences

  // What is read of a MetaWindow. User times are 32-bit.
  datatype Window = Window(
    skipTaskbar: bool,
    transientFor: Option<nat>,
    normal: bool,
    remote: bool,
    workspace: int,
    onAllWorkspaces: bool,
    visible: bool,
    userTime: nat,
    overrideRedirect: bool,
    hasObjectPath: bool)

  // A difference of 32-bit unsigned numbers, taken as a signed one.
  function Difference(x: nat, y: nat): int {
    var d := (x - y) % 0x1_0000_0000;
    if d < 0x8000_0000 then d else d - 0x1_0000_0000
  }

  // shell_app_compare_windows
  function Compare(active: int, a: Window, b: Window): int {
    var wsA, wsB := a.workspace == active, b.workspace == active;
    if wsA && !wsB then -1
    else if !wsA && wsB then 1
    else if a.visible && !b.visible then -1
    else if !a.visible && b.visible then 1
    else Difference(b.userTime, a.userTime)
  }

  // On the active workspace first, then visible, then by latest user time.
  predicate Precedes(active: int, a: Window, b: Window) {
    if (a.workspace == active) != (b.workspace == active) then a.workspace == active
    else if a.visible != b.visible then a.visible
    else a.userTime > b.userTime
  }

  predicate TimesClose(a: Window, b: Window) {
    -0x8000_0000 < a.userTime - b.userTime < 0x8000_0000
  }

  // As long as user times are within 2^31 of each other, the comparison is the intended one.
  lemma CompareMeans(active: int, a: Window, b: Window)
    requires TimesClose(a, b)
    ensures Compare(active, a, b) < 0 <==> Precedes(active, a, b)
    ensures Compare(active, a, b) > 0 <==> Precedes(active, b, a)
  {
  }

  /**
    Exactly when it is. User times are 32-bit; where workspace and visibility do not decide, the difference must not
    wrap.
   */
  lemma CompareExact(active: int, a: Window, b: Window)
    requires a.userTime < 0x1_0000_0000 && b.userTime < 0x1_0000_0000
    ensures (Compare(active, a, b) < 0 <==> Precedes(active, a, b))
            && (Compare(active, a, b) > 0 <==> Precedes(active, b, a))
            <==>
            (a.workspace == active) != (b.workspace == active) || a.visible != b.visible
            || -0x8000_0000 <= b.userTime - a.userTime < 0x8000_0000
  {
  }

  // One pair of times beyond that: the difference wraps, and the earlier of two windows comes first.
  lemma WrappedTimesMisorder(active: int, a: Window)
    requires a.userTime == 0
    ensures
      var b := a.(userTime := 0x8000_0001);
      Precedes(active, b, a) && Compare(active, a, b) < 0
  {
  }

  predicate Known(table: seq<Window>, xs: seq<nat>) {
    forall i :: 0 <= i < |xs| ==> xs[i] < |table|
  }

  predicate AllClose(table: seq<Window>) {
    forall i, j :: 0 <= i < |table| && 0 <= j < |table| ==> TimesClose(table[i], table[j])
  }

  predicate Sorted(table: seq<Window>, active: int, xs: seq<nat>)
    requires Known(table, xs)
  {
    forall i, j :: 0 <= i < j < |xs| ==> !Precedes(active, table[xs[j]], table[xs[i]])
  }

  function Insert(table: seq<Window>, active: int, x: nat, xs: seq<nat>): (r: seq<nat>)
    requires x < |table| && Known(table, xs)
    ensures Known(table, r) && multiset(r) == multiset{x} + multiset(xs)
  {
    if xs == [] || Compare(active, table[x], table[xs[0]]) <= 0 then [x] + xs
    else
      assert xs == [xs[0]] + xs[1..];
      [xs[0]] + Insert(table, active, x, xs[1..])
  }

  // g_slist_sort_with_data: a stable sort.
  function Sort(table: seq<Window>, active: int, xs: seq<nat>): (r: seq<nat>)
    requires Known(table, xs)
    ensures Known(table, r) && multiset(r) == multiset(xs)
  {
    if xs == [] then [] else
      assert xs == [xs[0]] + xs[1..];
      Insert(table, active, xs[0], Sort(table, active, xs[1..]))
  }

  lemma {:induction false} InsertSorted(table: seq<Window>, active: int, x: nat, xs: seq<nat>)
    requires x < |table| && Known(table, xs) && AllClose(table) && Sorted(table, active, xs)
    ensures Sorted(table, active, Insert(table, active, x, xs))
  {
    if xs != [] {
      CompareMeans(active, table[x], table[xs[0]]);
      if Compare(active, table[x], table[xs[0]]) > 0 {
        InsertSorted(table, active, x, xs[1..]);
        var rest := Insert(table, active, x, xs[1..]);
        forall j | 0 <= j < |rest|
          ensures !Precedes(active, table[rest[j]], table[xs[0]])
        {
          assert rest[j] in multiset(rest);
          assert rest[j] == x || rest[j] in xs[1..];
        }
      }
    }
  }

  lemma {:induction false} SortSorts(table: seq<Window>, active: int, xs: seq<nat>)
    requires Known(table, xs) && AllClose(table)
    ensures Sorted(table, active, Sort(table, active, xs))
  {
    if xs != [] {
      SortSorts(table, active, xs[1..]);
      InsertSorted(table, active, xs[0], Sort(table, active, xs[1..]));
    }
  }

  // The elements of xs that come neither before nor after x, in order.
  function Ties(table: seq<Window>, active: int, x: nat, xs: seq<nat>): seq<nat>
    requires x < |table| && Known(table, xs)
  {
    if xs == [] then [] else
      (if Tied(active, table[x], table[xs[0]]) then [xs[0]] else []) + Ties(table, active, x, xs[1..])
  }

  predicate Tied(active: int, a: Window, b: Window) {
    !Precedes(active, a, b) && !Precedes(active, b, a)
  }

  lemma NotBothTied(active: int, t: Window, a: Window, b: Window)
    requires Precedes(active, b, a)
    ensures !Tied(active, t, a) || !Tied(active, t, b)
  {
  }

  lemma TiesFirst(table: seq<Window>, active: int, t: nat, x: nat, xs: seq<nat>)
    requires t < |table| && x < |table| && Known(table, xs)
    ensures Known(table, [x] + xs)
    ensures Ties(table, active, t, [x] + xs)
            == (if Tied(active, table[t], table[x]) then [x] else []) + Ties(table, active, t, xs)
  {
    assert ([x] + xs)[1..] == xs;
  }

  lemma {:induction false} InsertKeepsTies(table: seq<Window>, active: int, x: nat, xs: seq<nat>, t: nat)
    requires x < |table| && t < |table| && Known(table, xs) && AllClose(table)
    ensures Ties(table, active, t, Insert(table, active, x, xs)) == Ties(table, active, t, [x] + xs)
  {
    if xs != [] && Compare(active, table[x], table[xs[0]]) > 0 {
      var y, rest := xs[0], xs[1..];
      CompareMeans(active, table[x], table[y]);
      NotBothTied(active, table[t], table[x], table[y]);
      InsertKeepsTies(table, active, x, rest, t);
      assert xs == [y] + rest && Insert(table, active, x, xs) == [y] + Insert(table, active, x, rest);
      hide Compare, Tied, Precedes, Ties, Insert, Known, AllClose;
      TiesFirst(table, active, t, y, Insert(table, active, x, rest));
      TiesFirst(table, active, t, x, rest);
      TiesFirst(table, active, t, y, rest);
      TiesFirst(table, active, t, x, xs);
    }
  }

  lemma {:induction false} SortKeepsTies(table: seq<Window>, active: int, xs: seq<nat>, t: nat)
    requires t < |table| && Known(table, xs) && AllClose(table)
    ensures Ties(table, active, t, Sort(table, active, xs)) == Ties(table, active, t, xs)
  {
    if xs != [] {
      var rest := Sort(table, active, xs[1..]);
      SortKeepsTies(table, active, xs[1..], t);
      InsertKeepsTies(table, active, xs[0], rest, t);
      assert ([xs[0]] + rest)[1..] == rest;
    }
  }

  lemma {:induction false} TiesOf(table: seq<Window>, active: int, t: nat, xs: seq<nat>)
    requires t < |table| && Known(table, xs)
    ensures forall x :: x in Ties(table, active, t, xs) <==> x in xs && Tied(active, table[t], table[x])
  {
    if xs != [] {
      TiesOf(table, active, t, xs[1..]);
      assert xs == [xs[0]] + xs[1..];
    }
  }

  lemma HeadOfTies(table: seq<Window>, active: int, xs: seq<nat>, ys: seq<nat>)
    requires Known(table, xs) && Known(table, ys) && xs != []
    requires Sorted(table, active, xs) && Sorted(table, active, ys)
    requires forall t: nat :: t < |table| ==> Ties(table, active, t, xs) == Ties(table, active, t, ys)
    ensures ys != [] && xs[0] == ys[0]
  {
    var x := xs[0];
    TiesOf(table, active, x, xs);
    TiesOf(table, active, x, ys);
    assert x in Ties(table, active, x, ys);
    var y := ys[0];
    TiesOf(table, active, y, xs);
    TiesOf(table, active, y, ys);
    assert y in Ties(table, active, y, xs);
    assert !Precedes(active, table[y], table[x]) && !Precedes(active, table[x], table[y]);
    assert Ties(table, active, x, xs)[0] == x && Ties(table, active, x, ys)[0] == y;
  }

  // Sorted lists in which tied windows come in the same order are the same.
  lemma {:induction false} SortedUnique(table: seq<Window>, active: int, xs: seq<nat>, ys: seq<nat>)
    requires Known(table, xs) && Known(table, ys) && Sorted(table, active, xs) && Sorted(table, active, ys)
    requires forall t: nat :: t < |table| ==> Ties(table, active, t, xs) == Ties(table, active, t, ys)
    ensures xs == ys
  {
    if xs == [] {
      if ys != [] {
        HeadOfTies(table, active, ys, xs);
      }
    } else {
      HeadOfTies(table, active, xs, ys);
      forall t: nat | t < |table|
        ensures Ties(table, active, t, xs[1..]) == Ties(table, active, t, ys[1..])
      {
        assert Ties(table, active, t, xs) == Ties(table, active, t, ys);
        var first := if Tied(active, table[t], table[xs[0]]) then [xs[0]] else [];
        assert Ties(table, active, t, xs)[|first|..] == Ties(table, active, t, xs[1..]);
        assert Ties(table, active, t, ys)[|first|..] == Ties(table, active, t, ys[1..]);
      }
      SortedUnique(table, active, xs[1..], ys[1..]);
      assert xs == [xs[0]] + xs[1..] && ys == [ys[0]] + ys[1..];
    }
  }

  /**
    Whatever sorts the list and leaves tied windows in their order gives the same result as Sort; so a list found in
    order is what a fresh sort of it would be.
   */
  lemma StableSortIsSort(table: seq<Window>, active: int, xs: seq<nat>, ys: seq<nat>)
    requires Known(table, xs) && Known(table, ys) && AllClose(table) && Sorted(table, active, ys)
    requires forall t: nat :: t < |table| ==> Ties(table, active, t, ys) == Ties(table, active, t, xs)
    ensures ys == Sort(table, active, xs)
  {
    SortSorts(table, active, xs);
    forall t: nat | t < |table|
      ensures Ties(table, active, t, Sort(table, active, xs)) == Ties(table, active, t, ys)
    {
      SortKeepsTies(table, active, xs, t);
    }
    SortedUnique(table, active, ys, Sort(table, active, xs));
  }

  lemma SortedIsFresh(table: seq<Window>, active: int, xs: seq<nat>)
    requires Known(table, xs) && AllClose(table)
    ensures Sorted(table, active, xs) <==> Sort(table, active, xs) == xs
  {
    SortSorts(table, active, xs);
    if Sorted(table, active, xs) {
      StableSortIsSort(table, active, xs, xs);
    }
  }

  lemma {:induction false} RemoveSorted(table: seq<Window>, active: int, xs: seq<nat>, x: nat)
    requires Known(table, xs) && Sorted(table, active, xs)
    ensures Known(table, RemoveFirst(xs, x)) && Sorted(table, active, RemoveFirst(xs, x))
  {
    if xs != [] && xs[0] != x {
      hide Precedes;
      var rest := RemoveFirst(xs[1..], x);
      RemoveSorted(table, active, xs[1..], x);
      forall j | 0 <= j < |rest|
        ensures !Precedes(active, table[rest[j]], table[xs[0]])
      {
        assert rest[j] in xs[1..];
      }
      assert RemoveFirst(xs, x) == [xs[0]] + rest;
    }
  }

  // The first window's user time can grow without disturbing the order.
  lemma HeadGrows(table: seq<Window>, table': seq<Window>, active: int, xs: seq<nat>, w: nat)
    requires Known(table, xs) && Sorted(table, active, xs) && |table'| == |table| && w < |table|
    requires forall i :: 0 <= i < |table| && i != w ==> table'[i] == table[i]
    requires table'[w] == table[w].(userTime := table'[w].userTime) && table[w].userTime <= table'[w].userTime
    requires Distinct(xs)
    requires w in xs ==> xs[0] == w
    ensures Known(table', xs) && Sorted(table', active, xs)
  {
    forall i, j | 0 <= i < j < |xs|
      ensures !Precedes(active, table'[xs[j]], table'[xs[i]])
    {
      assert xs[j] in xs && xs[0] != xs[j];
      assert !Precedes(active, table[xs[j]], table[xs[i]]);
    }
  }

  // Whether the window in place i could be `moved` instead, between its neighbours as they are.
  predicate FitsAt(table: seq<Window>, active: int, xs: seq<nat>, i: nat, moved: Window)
    requires Known(table, xs) && i < |xs|
  {
    && (i > 0 ==> !Precedes(active, moved, table[xs[i - 1]]))
    && (i + 1 < |xs| ==> !Precedes(active, table[xs[i + 1]], moved))
  }

  lemma NotAfterTransitive(active: int, a: Window, b: Window, c: Window)
    requires !Precedes(active, b, a) && !Precedes(active, c, b)
    ensures !Precedes(active, c, a)
  {
  }

  // Whatever changes about one window of a list in order, its neighbours tell whether the list still is.
  lemma MovedExact(table: seq<Window>, table': seq<Window>, active: int, xs: seq<nat>, i: nat)
    requires Known(table, xs) && Distinct(xs) && Sorted(table, active, xs) && i < |xs| && |table'| == |table|
    requires forall x :: 0 <= x < |table| && x != xs[i] ==> table'[x] == table[x]
    ensures Known(table', xs)
    ensures Sorted(table', active, xs) <==> FitsAt(table, active, xs, i, table'[xs[i]])
  {
    assert forall j :: 0 <= j < |xs| && j != i ==> table'[xs[j]] == table[xs[j]];
    if FitsAt(table, active, xs, i, table'[xs[i]]) {
      forall j, k | 0 <= j < k < |xs|
        ensures !Precedes(active, table'[xs[k]], table'[xs[j]])
      {
        assert !Precedes(active, table[xs[k]], table[xs[j]]);
        if k == i && j < i - 1 {
          NotAfterTransitive(active, table[xs[j]], table[xs[i - 1]], table'[xs[i]]);
        } else if j == i && k > i + 1 {
          NotAfterTransitive(active, table'[xs[i]], table[xs[i + 1]], table[xs[k]]);
        }
      }
    }
  }
}
