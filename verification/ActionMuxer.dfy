/**
  The action muxer of src/gtkactionmuxer.c: namespaced action groups, a parent chain, and observers kept up to date by
  notifications. Muxers, groups and observers are objects that refer to each other in both directions (a group's
  signals call muxers, a parent's signals call its children), so they are records in tables and references are indices.
 */
module ActionMuxer {
  import opened Wrappers
  import opened Sequences
  import opened ActionNames

  // What query_action reports of an action.
  datatype Info = Info(parameterType: string, enabled: bool, value: Option<string>)

  // A group's actions, and the (muxer, prefix) pairs whose handlers are connected to its signals, in order.
  datatype Group = Group(actions: map<string, Info>, listeners: seq<Binding>)

  datatype Binding = Binding(muxer: nat, prefix: string)

  // `children` are the muxers connected to this one's signals: those it is the parent of, in order of connection.
  datatype Muxer = Muxer(
    groups: map<string, nat>,
    parent: Option<nat>,
    children: seq<nat>,
    watchers: map<string, seq<nat>>)

  // What observer `observer` knows of action `name` of muxer `muxer`; an absent key is an action that is not there.
  datatype Key = Key(observer: nat, muxer: nat, name: string)
  type Views = map<Key, Info>

  // `rank` decreases from parent to child and stays below `height`: it witnesses that the parent chains end.
  datatype Forest = Forest(muxers: seq<Muxer>, groups: seq<Group>, rank: seq<nat>, height: nat)

  ghost predicate LinkedAt(f: Forest, m: nat)
    requires m < |f.muxers| == |f.rank|
  {
    var x := f.muxers[m];
    && f.rank[m] < f.height
    && (x.parent.Some? ==> x.parent.value < |f.muxers| && f.rank[m] < f.rank[x.parent.value])
    && (forall c :: c in x.children ==> c < |f.muxers| && f.muxers[c].parent == Some(m))
    && (forall i, j :: 0 <= i < j < |x.children| ==> x.children[i] != x.children[j])
    && (forall p :: p in x.groups ==> '.' !in p && x.groups[p] < |f.groups|)
  }

  // The tree of muxers: parents rank above their children, and a connected child has the muxer as its parent.
  ghost predicate Linked(f: Forest) {
    |f.rank| == |f.muxers| && forall m {:trigger f.muxers[m]} :: 0 <= m < |f.muxers| ==> LinkedAt(f, m)
  }

  // Every muxer but `loose` is connected to its parent's signals.
  ghost predicate ChildrenKnown(f: Forest, loose: Option<nat>)
    requires Linked(f)
  {
    forall m {:trigger f.muxers[m]} :: 0 <= m < |f.muxers| && f.muxers[m].parent.Some? && loose != Some(m) ==>
      m in f.muxers[f.muxers[m].parent.value].children
  }

  // The group handlers connected are exactly those of the groups inserted, once each.
  ghost predicate Wired(f: Forest) {
    && (forall m, p {:trigger p in f.muxers[m].groups} :: 0 <= m < |f.muxers| && p in f.muxers[m].groups ==>
         f.muxers[m].groups[p] < |f.groups| && Binding(m, p) in f.groups[f.muxers[m].groups[p]].listeners)
    && (forall g, b {:trigger b in f.groups[g].listeners} :: 0 <= g < |f.groups| && b in f.groups[g].listeners ==>
         b.muxer < |f.muxers| && b.prefix in f.muxers[b.muxer].groups && f.muxers[b.muxer].groups[b.prefix] == g)
    && (forall g, i, j {:trigger f.groups[g].listeners[i], f.groups[g].listeners[j]} ::
         0 <= g < |f.groups| && 0 <= i < j < |f.groups[g].listeners| ==>
         f.groups[g].listeners[i] != f.groups[g].listeners[j])
  }

  function Lookup(actions: map<string, Info>, action: string): Option<Info> {
    if action in actions then Some(actions[action]) else None
  }

  // gtk_action_muxer_query_action: the muxer's own group for the prefix decides, else the parent.
  ghost function Query(f: Forest, m: nat, name: string): Option<Info>
    requires Linked(f) && m < |f.muxers|
    decreases f.height - f.rank[m]
  {
    var x := f.muxers[m];
    var split := SplitName(name);
    if split.Some? && split.value.prefix in x.groups then
      Lookup(f.groups[x.groups[split.value.prefix]].actions, split.value.action)
    else if x.parent.Some? then Query(f, x.parent.value, name)
    else None
  }

  // m is a, or below it on a parent chain.
  ghost predicate Below(f: Forest, a: nat, m: nat)
    requires Linked(f) && m < |f.muxers|
    decreases f.height - f.rank[m]
  {
    m == a || (f.muxers[m].parent.Some? && Below(f, a, f.muxers[m].parent.value))
  }

  // No prefix is used twice along a parent chain.
  ghost predicate Disjoint(f: Forest)
    requires Linked(f)
  {
    forall a, m, p {:trigger p in f.muxers[a].groups, p in f.muxers[m].groups} ::
      0 <= a < |f.muxers| && 0 <= m < |f.muxers| && a != m && Below(f, a, m) && p in f.muxers[a].groups ==>
        p !in f.muxers[m].groups
  }

  function WatchersOf(x: Muxer, name: string): seq<nat> {
    if name in x.watchers then x.watchers[name] else []
  }

  function View(views: Views, k: Key): Option<Info> {
    if k in views then Some(views[k]) else None
  }

  ghost predicate Watches(f: Forest, k: Key) {
    k.muxer < |f.muxers| && k.observer in WatchersOf(f.muxers[k.muxer], k.name)
  }

  // Every observer's view is what a query would answer.
  ghost predicate Agree(f: Forest, views: Views)
    requires Linked(f)
  {
    forall k {:trigger Watches(f, k)} :: Watches(f, k) ==> View(views, k) == Query(f, k.muxer, k.name)
  }

  // ---------- notifications ----------

  datatype Change = Added | Removed | EnabledChanged(enabled: bool) | StateChanged(value: Option<string>)

  // What an observer makes of a notification; `found` is the query made for an action-added notification.
  function Apply(change: Change, found: Option<Info>, seen: Option<Info>): Option<Info> {
    match change
    case Added => if found.Some? then found else seen
    case Removed => None
    case EnabledChanged(e) => if seen.Some? then Some(seen.value.(enabled := e)) else None
    case StateChanged(v) => if seen.Some? then Some(seen.value.(value := v)) else None
  }

  // The views after the notification of `change` to m and, through it, to every muxer below.
  ghost function Told(f: Forest, views: Views, a: nat, name: string, change: Change, found: Option<Info>, k: Key)
      : Option<Info>
    requires Linked(f)
  {
    if k.name == name && Watches(f, k) && Below(f, a, k.muxer) then
      Apply(change, if k.muxer == a || f.muxers[k.muxer].parent == None then found
                    else Query(f, f.muxers[k.muxer].parent.value, name), View(views, k))
    else View(views, k)
  }

  lemma {:induction false} BelowRank(f: Forest, a: nat, m: nat)
    requires Linked(f) && m < |f.muxers| && Below(f, a, m)
    ensures a < |f.muxers| && f.rank[m] <= f.rank[a] && (f.rank[m] == f.rank[a] ==> m == a)
    decreases f.height - f.rank[m]
  {
    if m != a {
      BelowRank(f, a, f.muxers[m].parent.value);
    }
  }

  lemma {:induction false} BelowComparable(f: Forest, a: nat, b: nat, m: nat)
    requires Linked(f) && m < |f.muxers| && Below(f, a, m) && Below(f, b, m)
    ensures a < |f.muxers| && b < |f.muxers| && (Below(f, a, b) || Below(f, b, a))
    decreases f.height - f.rank[m]
  {
    BelowRank(f, a, m);
    BelowRank(f, b, m);
    if m != a && m != b {
      BelowComparable(f, a, b, f.muxers[m].parent.value);
    }
  }

  // `loose` is not among the muxers a's notifications go down to.
  ghost predicate NotUnder(f: Forest, a: nat, loose: Option<nat>)
    requires Linked(f)
  {
    loose.Some? && loose.value < |f.muxers| && Below(f, a, loose.value) ==> loose.value == a
  }

  lemma ChildNotUnder(f: Forest, a: nat, i: nat, loose: Option<nat>)
    requires Linked(f) && a < |f.muxers| && i < |f.muxers[a].children| && NotUnder(f, a, loose)
    ensures NotUnder(f, f.muxers[a].children[i], loose)
  {
    var c := f.muxers[a].children[i];
    assert c in f.muxers[a].children;
    if loose.Some? && loose.value < |f.muxers| && Below(f, c, loose.value) {
      ChildrenApart(f, a, i, i, loose.value);
    }
  }

  // Below m are m itself and what is below exactly one of its children.
  lemma {:induction false} BelowByChild(f: Forest, loose: Option<nat>, a: nat, m: nat)
    requires Linked(f) && m < |f.muxers| && a < |f.muxers| && m != a && Below(f, a, m)
    requires ChildrenKnown(f, loose) && NotUnder(f, a, loose)
    ensures exists i :: 0 <= i < |f.muxers[a].children| && Below(f, f.muxers[a].children[i], m)
    decreases f.height - f.rank[m]
  {
    var p := f.muxers[m].parent.value;
    if p == a {
      var i :| 0 <= i < |f.muxers[a].children| && f.muxers[a].children[i] == m;
      assert Below(f, f.muxers[a].children[i], m);
    } else {
      BelowByChild(f, loose, a, p);
      var i :| 0 <= i < |f.muxers[a].children| && Below(f, f.muxers[a].children[i], p);
      assert Below(f, f.muxers[a].children[i], m);
    }
  }

  lemma {:induction false} BelowTrans(f: Forest, a: nat, b: nat, m: nat)
    requires Linked(f) && m < |f.muxers| && b < |f.muxers| && Below(f, a, b) && Below(f, b, m)
    ensures Below(f, a, m)
    decreases f.height - f.rank[m]
  {
    if m != b {
      BelowTrans(f, a, b, f.muxers[m].parent.value);
    }
  }

  lemma ChildrenApart(f: Forest, a: nat, i: nat, j: nat, m: nat)
    requires Linked(f) && m < |f.muxers| && a < |f.muxers| && i < |f.muxers[a].children| && j < |f.muxers[a].children|
    requires Below(f, f.muxers[a].children[i], m) && Below(f, f.muxers[a].children[j], m)
    ensures i == j && m != a && Below(f, a, m)
  {
    var c, d := f.muxers[a].children[i], f.muxers[a].children[j];
    assert c in f.muxers[a].children && d in f.muxers[a].children;
    BelowRank(f, c, m);
    BelowComparable(f, c, d, m);
    assert Below(f, a, c);
    BelowTrans(f, a, c, m);
    if c != d {
      if Below(f, c, d) {
        assert Below(f, c, a);
        BelowRank(f, c, a);
      } else {
        assert Below(f, d, a);
        BelowRank(f, d, a);
      }
    }
  }

  // After the muxer itself and its first n children have been told.
  ghost function ToldUpTo(f: Forest, views: Views, a: nat, name: string, change: Change, found: Option<Info>, n: nat,
                          k: Key): Option<Info>
    requires Linked(f) && a < |f.muxers| && n <= |f.muxers[a].children|
  {
    if Watches(f, k)
       && (k.muxer == a || exists i :: 0 <= i < n && Below(f, f.muxers[a].children[i], k.muxer))
    then Told(f, views, a, name, change, found, k)
    else View(views, k)
  }

  lemma ToldByAll(f: Forest, loose: Option<nat>, views: Views, a: nat, name: string, change: Change,
                  found: Option<Info>, k: Key)
    requires Linked(f) && a < |f.muxers| && ChildrenKnown(f, loose) && NotUnder(f, a, loose)
    ensures ToldUpTo(f, views, a, name, change, found, |f.muxers[a].children|, k)
            == Told(f, views, a, name, change, found, k)
  {
    if Watches(f, k) && Below(f, a, k.muxer) && k.muxer != a {
      BelowByChild(f, loose, a, k.muxer);
    }
  }

  // Telling child n, on top of those before it.
  lemma ToldNextChild(f: Forest, views: Views, views': Views, views'': Views, a: nat, name: string, change: Change,
                      found: Option<Info>, n: nat, k: Key)
    requires Linked(f) && a < |f.muxers| && n < |f.muxers[a].children|
    requires View(views', k) == ToldUpTo(f, views, a, name, change, found, n, k)
    requires View(views'', k)
             == Told(f, views', f.muxers[a].children[n], name, change, Query(f, a, name), k)
    ensures View(views'', k) == ToldUpTo(f, views, a, name, change, found, n + 1, k)
  {
    var c := f.muxers[a].children[n];
    assert c in f.muxers[a].children;
    if Watches(f, k) && Below(f, c, k.muxer) {
      ChildrenApart(f, a, n, n, k.muxer);
      if exists i :: 0 <= i < n && Below(f, f.muxers[a].children[i], k.muxer) {
        var i :| 0 <= i < n && Below(f, f.muxers[a].children[i], k.muxer);
        ChildrenApart(f, a, i, n, k.muxer);
      }
    }
  }

  // ---------- who answers a query ----------

  // Some muxer from m upward has a group for the name's prefix.
  ghost predicate Claimed(f: Forest, m: nat, name: string)
    requires Linked(f) && m < |f.muxers|
    decreases f.height - f.rank[m]
  {
    var split := SplitName(name);
    || (split.Some? && split.value.prefix in f.muxers[m].groups)
    || (f.muxers[m].parent.Some? && Claimed(f, f.muxers[m].parent.value, name))
  }

  lemma {:induction false} UnclaimedIsUnknown(f: Forest, m: nat, name: string)
    requires Linked(f) && m < |f.muxers| && !Claimed(f, m, name)
    ensures Query(f, m, name) == None
    decreases f.height - f.rank[m]
  {
    if f.muxers[m].parent.Some? {
      UnclaimedIsUnknown(f, f.muxers[m].parent.value, name);
    }
  }

  lemma {:induction false} ClaimedFrom(f: Forest, m: nat, name: string) returns (a: nat)
    requires Linked(f) && m < |f.muxers| && Claimed(f, m, name)
    ensures a < |f.muxers| && Below(f, a, m) && SplitName(name).Some?
    ensures SplitName(name).value.prefix in f.muxers[a].groups
    decreases f.height - f.rank[m]
  {
    if SplitName(name).Some? && SplitName(name).value.prefix in f.muxers[m].groups {
      a := m;
    } else {
      a := ClaimedFrom(f, f.muxers[m].parent.value, name);
    }
  }

  lemma {:induction false} ClaimedBelow(f: Forest, a: nat, m: nat, name: string)
    requires Linked(f) && m < |f.muxers| && Below(f, a, m) && a < |f.muxers| && Claimed(f, a, name)
    ensures Claimed(f, m, name)
    decreases f.height - f.rank[m]
  {
    if m != a {
      ClaimedBelow(f, a, f.muxers[m].parent.value, name);
    }
  }

  // With disjoint prefixes, the one group for a prefix answers for its muxer and everything below.
  lemma {:induction false} QueryOwner(f: Forest, a: nat, m: nat, prefix: string, action: string)
    requires Linked(f) && Disjoint(f) && m < |f.muxers| && Below(f, a, m)
    requires a < |f.muxers| && prefix in f.muxers[a].groups
    ensures Query(f, m, FullName(prefix, action)) == Lookup(f.groups[f.muxers[a].groups[prefix]].actions, action)
    decreases f.height - f.rank[m]
  {
    SplitFull(prefix, action);
    if m != a {
      assert prefix !in f.muxers[m].groups;
      QueryOwner(f, a, f.muxers[m].parent.value, prefix, action);
    }
  }

  lemma OneOwner(f: Forest, a: nat, b: nat, m: nat, prefix: string)
    requires Linked(f) && Disjoint(f) && m < |f.muxers| && Below(f, a, m) && Below(f, b, m)
    requires a < |f.muxers| && b < |f.muxers| && prefix in f.muxers[a].groups && prefix in f.muxers[b].groups
    ensures a == b
  {
    BelowComparable(f, a, b, m);
  }

  // ---------- views that are being brought up to date ----------

  // A notification still to be sent: to muxer `muxer`, and so to everything below it, about `name`.
  datatype Spot = Spot(muxer: nat, name: string)

  ghost predicate Covers(f: Forest, s: Spot, k: Key)
    requires Linked(f)
  {
    s.name == k.name && k.muxer < |f.muxers| && Below(f, s.muxer, k.muxer)
  }

  ghost predicate Stale(f: Forest, pending: set<Spot>, k: Key)
    requires Linked(f)
  {
    exists s :: s in pending && Covers(f, s, k)
  }

  // Views that a pending notification covers are as of `before`, all others as of `now`.
  ghost predicate InStep(shape: Forest, before: Forest, now: Forest, views: Views, pending: set<Spot>)
    requires Linked(shape) && Linked(before) && Linked(now)
    requires |shape.muxers| == |before.muxers| == |now.muxers|
  {
    forall k {:trigger Watches(shape, k)} :: Watches(shape, k) ==>
      View(views, k) == Query(if Stale(shape, pending, k) then before else now, k.muxer, k.name)
  }

  // What the action-added notification finds at the muxer of k.
  ghost function FoundAt(f: Forest, a: nat, name: string, found: Option<Info>, m: nat): Option<Info>
    requires Linked(f) && m < |f.muxers|
  {
    if m == a || f.muxers[m].parent == None then found else Query(f, f.muxers[m].parent.value, name)
  }

  // The notification takes what `before` answers to what `now` answers, and no other pending one is about the same.
  ghost predicate TellsRight(shape: Forest, before: Forest, now: Forest, s: Spot, change: Change, found: Option<Info>,
                             others: set<Spot>, k: Key)
    requires Linked(shape) && Linked(before) && Linked(now)
    requires |shape.muxers| == |before.muxers| == |now.muxers|
  {
    Covers(shape, s, k) ==>
      && !Stale(shape, others, k)
      && Apply(change, FoundAt(shape, s.muxer, s.name, found, k.muxer), Query(before, k.muxer, k.name))
         == Query(now, k.muxer, k.name)
  }

  lemma TellStep(shape: Forest, before: Forest, now: Forest, views: Views, views': Views, s: Spot, change: Change,
                 found: Option<Info>, pending: set<Spot>)
    requires Linked(shape) && Linked(before) && Linked(now)
    requires |shape.muxers| == |before.muxers| == |now.muxers|
    requires InStep(shape, before, now, views, pending) && s in pending
    requires forall k :: View(views', k) == Told(shape, views, s.muxer, s.name, change, found, k)
    requires forall k {:trigger Watches(shape, k)} :: Watches(shape, k) ==>
               TellsRight(shape, before, now, s, change, found, pending - {s}, k)
    ensures InStep(shape, before, now, views', pending - {s})
  {
    forall k | Watches(shape, k)
      ensures View(views', k) == Query(if Stale(shape, pending - {s}, k) then before else now, k.muxer, k.name)
    {
      assert TellsRight(shape, before, now, s, change, found, pending - {s}, k);
      if Covers(shape, s, k) {
        assert Stale(shape, pending, k);
      } else if Stale(shape, pending, k) {
        var t :| t in pending && Covers(shape, t, k);
        assert t in pending - {s};
      }
    }
  }

  lemma NothingPending(shape: Forest, before: Forest, now: Forest, views: Views)
    requires Linked(shape) && Linked(before) && Linked(now)
    requires |shape.muxers| == |before.muxers| == |now.muxers| && SameWatchers(shape, now)
    requires InStep(shape, before, now, views, {})
    ensures Agree(now, views)
  {
    forall k | Watches(now, k)
      ensures View(views, k) == Query(now, k.muxer, k.name)
    {
      assert Watches(shape, k);
      assert !Stale(shape, {}, k);
    }
  }

  ghost predicate SameWatchers(f: Forest, g: Forest) {
    |f.muxers| == |g.muxers| && forall m {:trigger f.muxers[m]} :: 0 <= m < |f.muxers| ==>
      f.muxers[m].watchers == g.muxers[m].watchers
  }

  // Same muxers, parents and inserted groups: the same chains.
  ghost predicate SameShape(f: Forest, g: Forest) {
    && |f.muxers| == |g.muxers| && f.rank == g.rank && f.height == g.height
    && forall m {:trigger f.muxers[m]} :: 0 <= m < |f.muxers| ==>
         f.muxers[m].parent == g.muxers[m].parent && f.muxers[m].children == g.muxers[m].children
  }

  lemma {:induction false} SameBelow(f: Forest, g: Forest, a: nat, m: nat)
    requires Linked(f) && Linked(g) && SameShape(f, g) && m < |f.muxers|
    ensures Below(f, a, m) <==> Below(g, a, m)
    decreases f.height - f.rank[m]
  {
    assert f.muxers[m].parent == g.muxers[m].parent;
    if m != a && f.muxers[m].parent.Some? {
      SameBelow(f, g, a, f.muxers[m].parent.value);
    }
  }

  // ---------- a group changes one action ----------

  ghost predicate OneActionChanged(f: Forest, g: Forest, group: nat, action: string)
    requires group < |f.groups|
  {
    && g.muxers == f.muxers && g.rank == f.rank && g.height == f.height && |g.groups| == |f.groups|
    && (forall h {:trigger f.groups[h]} :: 0 <= h < |f.groups| && h != group ==> g.groups[h] == f.groups[h])
    && g.groups[group].listeners == f.groups[group].listeners
    && forall a :: a != action ==> Lookup(g.groups[group].actions, a) == Lookup(f.groups[group].actions, a)
  }

  // A query changes only for names that reach the changed group.
  lemma {:induction false} QueryUnlessReached(f: Forest, g: Forest, group: nat, action: string, m: nat, name: string)
    requires Linked(f) && Linked(g) && group < |f.groups| && OneActionChanged(f, g, group, action) && m < |f.muxers|
    requires Query(f, m, name) != Query(g, m, name)
    ensures exists a, p :: 0 <= a < |f.muxers| && p in f.muxers[a].groups && f.muxers[a].groups[p] == group
                           && Below(f, a, m) && name == FullName(p, action)
    decreases f.height - f.rank[m]
  {
    var split := SplitName(name);
    if split.Some? && split.value.prefix in f.muxers[m].groups {
      assert Below(f, m, m) && split.value.action == action;
    } else {
      QueryUnlessReached(f, g, group, action, f.muxers[m].parent.value, name);
    }
  }

  ghost function SpotsOf(listeners: seq<Binding>, action: string): set<Spot> {
    set i | 0 <= i < |listeners| :: Spot(listeners[i].muxer, FullName(listeners[i].prefix, action))
  }

  lemma SpotsOfTail(listeners: seq<Binding>, action: string)
    requires listeners != []
    ensures SpotsOf(listeners, action)
            == {Spot(listeners[0].muxer, FullName(listeners[0].prefix, action))} + SpotsOf(listeners[1..], action)
  {
    var all, rest := SpotsOf(listeners, action), SpotsOf(listeners[1..], action);
    forall s | s in all
      ensures s in {Spot(listeners[0].muxer, FullName(listeners[0].prefix, action))} + rest
    {
      var i :| 0 <= i < |listeners| && s == Spot(listeners[i].muxer, FullName(listeners[i].prefix, action));
      assert i > 0 ==> listeners[1..][i - 1] == listeners[i];
    }
    forall s | s in rest
      ensures s in all
    {
      var i :| 0 <= i < |listeners[1..]|
               && s == Spot(listeners[1..][i].muxer, FullName(listeners[1..][i].prefix, action));
      assert listeners[i + 1] == listeners[1..][i];
    }
  }

  // Before any handler ran, the views that no handler will reach are right already.
  lemma GroupChangeBegins(f: Forest, g: Forest, group: nat, action: string, views: Views)
    requires Linked(f) && Linked(g) && Wired(f) && group < |f.groups| && OneActionChanged(f, g, group, action)
    requires Agree(f, views)
    ensures InStep(g, f, g, views, SpotsOf(f.groups[group].listeners, action))
  {
    var pending := SpotsOf(f.groups[group].listeners, action);
    forall k | Watches(g, k)
      ensures View(views, k) == Query(if Stale(g, pending, k) then f else g, k.muxer, k.name)
    {
      assert Watches(f, k);
      if !Stale(g, pending, k) && Query(f, k.muxer, k.name) != Query(g, k.muxer, k.name) {
        QueryUnlessReached(f, g, group, action, k.muxer, k.name);
        var a, p :| 0 <= a < |f.muxers| && p in f.muxers[a].groups && f.muxers[a].groups[p] == group
                    && Below(f, a, k.muxer) && k.name == FullName(p, action);
        ReachedIsPending(f, g, group, action, a, p, k);
      }
    }
  }

  lemma ReachedIsPending(f: Forest, g: Forest, group: nat, action: string, a: nat, p: string, k: Key)
    requires Linked(f) && Linked(g) && Wired(f) && group < |f.groups| && OneActionChanged(f, g, group, action)
    requires a < |f.muxers| && p in f.muxers[a].groups && f.muxers[a].groups[p] == group
    requires k.muxer < |f.muxers| && Below(f, a, k.muxer) && k.name == FullName(p, action)
    ensures Stale(g, SpotsOf(f.groups[group].listeners, action), k)
  {
    var listeners := f.groups[group].listeners;
    assert Binding(a, p) in listeners;
    var i :| 0 <= i < |listeners| && listeners[i] == Binding(a, p);
    SameBelow(f, g, a, k.muxer);
    var s := Spot(a, FullName(p, action));
    assert s == Spot(listeners[i].muxer, FullName(listeners[i].prefix, action));
    assert s in SpotsOf(listeners, action) && Covers(g, s, k);
  }

  lemma SameDisjoint(f: Forest, g: Forest)
    requires Linked(f) && Linked(g) && g.muxers == f.muxers && g.rank == f.rank && g.height == f.height && Disjoint(f)
    ensures Disjoint(g)
  {
    forall a, m, p | 0 <= a < |g.muxers| && 0 <= m < |g.muxers| && a != m && Below(g, a, m) && p in g.muxers[a].groups
      ensures p !in g.muxers[m].groups
    {
      SameBelow(f, g, a, m);
    }
  }

  lemma NoOtherListener(f: Forest, g: Forest, group: nat, action: string, i: nat, k: Key)
    requires Linked(f) && Linked(g) && Wired(f) && Disjoint(g)
    requires group < |f.groups| && OneActionChanged(f, g, group, action) && i < |f.groups[group].listeners|
    requires
      var b := f.groups[group].listeners[i];
      Covers(g, Spot(b.muxer, FullName(b.prefix, action)), k)
    ensures
      var listeners := f.groups[group].listeners;
      var s := Spot(listeners[i].muxer, FullName(listeners[i].prefix, action));
      !Stale(g, SpotsOf(listeners[i..], action) - {s}, k)
  {
    var listeners := f.groups[group].listeners;
    var b := listeners[i];
    var s := Spot(b.muxer, FullName(b.prefix, action));
    assert b in listeners;
    var others := SpotsOf(listeners[i..], action) - {s};
    if Stale(g, others, k) {
      var t :| t in others && Covers(g, t, k);
      var j :| 0 <= j < |listeners[i..]|
               && t == Spot(listeners[i..][j].muxer, FullName(listeners[i..][j].prefix, action));
      var c := listeners[i..][j];
      assert c in listeners;
      SplitFull(b.prefix, action);
      SplitFull(c.prefix, action);
      OneOwner(g, b.muxer, c.muxer, k.muxer, b.prefix);
    }
  }

  // The handler of listener i tells what changed, and no later handler tells the same observers.
  lemma GroupTells(f: Forest, g: Forest, group: nat, action: string, i: nat, change: Change, k: Key)
    requires Linked(f) && Linked(g) && Wired(f) && Disjoint(f) && Disjoint(g)
    requires group < |f.groups| && OneActionChanged(f, g, group, action) && i < |f.groups[group].listeners|
    requires k.muxer < |f.muxers|
    requires
      var was, now := Lookup(f.groups[group].actions, action), Lookup(g.groups[group].actions, action);
      Apply(change, now, was) == now
    ensures
      var listeners := f.groups[group].listeners;
      var s := Spot(listeners[i].muxer, FullName(listeners[i].prefix, action));
      TellsRight(g, f, g, s, change, Lookup(g.groups[group].actions, action),
                 SpotsOf(listeners[i..], action) - {s}, k)
  {
    var listeners := f.groups[group].listeners;
    var b := listeners[i];
    var s := Spot(b.muxer, FullName(b.prefix, action));
    assert b in listeners;
    if Covers(g, s, k) {
      SameBelow(f, g, b.muxer, k.muxer);
      QueryOwner(f, b.muxer, k.muxer, b.prefix, action);
      QueryOwner(g, b.muxer, k.muxer, b.prefix, action);
      if k.muxer != b.muxer {
        QueryOwner(g, b.muxer, g.muxers[k.muxer].parent.value, b.prefix, action);
      }
      NoOtherListener(f, g, group, action, i, k);
    }
  }

  lemma OneActionKeeps(f: Forest, g: Forest, group: nat, action: string)
    requires Linked(f) && ChildrenKnown(f, None) && Wired(f) && Disjoint(f)
    requires group < |f.groups| && OneActionChanged(f, g, group, action)
    ensures Linked(g) && ChildrenKnown(g, None) && Wired(g) && Disjoint(g)
  {
    assert forall h :: 0 <= h < |f.groups| ==> g.groups[h].listeners == f.groups[h].listeners;
    forall m | 0 <= m < |f.muxers|
      ensures LinkedAt(g, m)
    {
      assert LinkedAt(f, m);
    }
    SameDisjoint(f, g);
  }

  // ---------- a group is inserted or removed ----------

  // g is f with `group` inserted in m under `prefix`.
  ghost predicate OneGroupMore(f: Forest, g: Forest, m: nat, prefix: string, group: nat)
    requires m < |f.muxers|
  {
    && |g.muxers| == |f.muxers| && g.rank == f.rank && g.height == f.height
    && |g.groups| == |f.groups| && group < |f.groups|
    && (forall h {:trigger f.groups[h]} :: 0 <= h < |f.groups| ==> g.groups[h].actions == f.groups[h].actions)
    && (forall x {:trigger f.muxers[x]} :: 0 <= x < |f.muxers| && x != m ==> g.muxers[x] == f.muxers[x])
    && prefix !in f.muxers[m].groups && '.' !in prefix
    && g.muxers[m] == f.muxers[m].(groups := f.muxers[m].groups[prefix := group])
  }

  lemma OneGroupMoreShape(f: Forest, g: Forest, m: nat, prefix: string, group: nat)
    requires m < |f.muxers| && OneGroupMore(f, g, m, prefix, group) && (Linked(f) || Linked(g))
    ensures Linked(f) && Linked(g) && SameShape(f, g) && SameWatchers(f, g)
    ensures ChildrenKnown(f, None) <==> ChildrenKnown(g, None)
  {
    forall x | 0 <= x < |f.muxers|
      ensures g.muxers[x].parent == f.muxers[x].parent && g.muxers[x].children == f.muxers[x].children
      ensures g.muxers[x].watchers == f.muxers[x].watchers
    {
    }
    forall x | 0 <= x < |f.muxers|
      ensures LinkedAt(f, x) && LinkedAt(g, x)
    {
      assert LinkedAt(f, x) || LinkedAt(g, x);
      assert forall p :: p in f.muxers[x].groups ==>
          p in g.muxers[x].groups && g.muxers[x].groups[p] == f.muxers[x].groups[p];
      assert forall p :: p in g.muxers[x].groups ==>
          (x == m && p == prefix) || (p in f.muxers[x].groups && g.muxers[x].groups[p] == f.muxers[x].groups[p]);
    }
  }

  // Only names with the prefix, at m and below, are answered differently: not at all without the group.
  lemma {:induction false} QueryOneGroupMore(f: Forest, g: Forest, m: nat, prefix: string, group: nat, x: nat,
                                             name: string)
    requires Linked(f) && Linked(g) && m < |f.muxers| && OneGroupMore(f, g, m, prefix, group) && Disjoint(g)
    requires x < |f.muxers|
    ensures
      var split := SplitName(name);
      if split.Some? && split.value.prefix == prefix && Below(f, m, x) then
        Query(f, x, name) == None && Query(g, x, name) == Lookup(f.groups[group].actions, split.value.action)
      else Query(f, x, name) == Query(g, x, name)
    decreases f.height - f.rank[x]
  {
    var split := SplitName(name);
    assert x != m ==> g.muxers[x] == f.muxers[x];
    SameBelow(f, g, m, x);
    if split.Some? && split.value.prefix == prefix && Below(f, m, x) {
      if Claimed(f, x, name) {
        var a := ClaimedFrom(f, x, name);
        SameBelow(f, g, a, x);
        assert prefix in g.muxers[a].groups && prefix in g.muxers[m].groups;
        OneOwner(g, a, m, x, prefix);
      }
      UnclaimedIsUnknown(f, x, name);
      QueryOwner(g, m, x, prefix, split.value.action);
    } else if f.muxers[x].parent.Some? {
      QueryOneGroupMore(f, g, m, prefix, group, f.muxers[x].parent.value, name);
    }
  }

  predicate Named(prefix: string, name: string) {
    SplitName(name).Some? && SplitName(name).value.prefix == prefix
  }

  function ActionIn(name: string): string {
    if SplitName(name).Some? then SplitName(name).value.action else ""
  }

  // What the muxers above m answer.
  ghost function Above(f: Forest, m: nat, name: string): Option<Info>
    requires Linked(f) && m < |f.muxers|
  {
    if f.muxers[m].parent.Some? then Query(f, f.muxers[m].parent.value, name) else None
  }

  // A muxer below m, on the way down to x or x itself, has a group under the prefix.
  ghost predicate Hides(f: Forest, m: nat, prefix: string, x: nat)
    requires Linked(f) && x < |f.muxers|
    decreases f.height - f.rank[x]
  {
    x != m
    && (prefix in f.muxers[x].groups
        || (f.muxers[x].parent.Some? && Hides(f, m, prefix, f.muxers[x].parent.value)))
  }

  // However the prefix is used elsewhere: a group answers where no other below it does, and hides what is above it.
  lemma {:induction false} QueryShadowed(f: Forest, g: Forest, m: nat, prefix: string, group: nat, x: nat, name: string)
    requires Linked(f) && Linked(g) && m < |f.muxers| && OneGroupMore(f, g, m, prefix, group) && x < |f.muxers|
    ensures Below(g, m, x) <==> Below(f, m, x)
    ensures Hides(g, m, prefix, x) <==> Hides(f, m, prefix, x)
    ensures if Named(prefix, name) && Below(f, m, x) && !Hides(f, m, prefix, x)
            then Query(g, x, name) == Lookup(f.groups[group].actions, ActionIn(name))
                 && Query(f, x, name) == Above(f, m, name)
            else Query(g, x, name) == Query(f, x, name)
    decreases f.height - f.rank[x]
  {
    assert LinkedAt(f, x);
    assert x != m ==> g.muxers[x] == f.muxers[x];
    if f.muxers[x].parent.Some? {
      QueryShadowed(f, g, m, prefix, group, f.muxers[x].parent.value, name);
    }
  }

  // The group changes nothing of what is answered above its muxer.
  lemma AboveSame(f: Forest, g: Forest, m: nat, prefix: string, group: nat, name: string)
    requires Linked(f) && Linked(g) && m < |f.muxers| && OneGroupMore(f, g, m, prefix, group)
    ensures Above(g, m, name) == Above(f, m, name)
  {
    assert LinkedAt(f, m);
    if f.muxers[m].parent.Some? {
      var up := f.muxers[m].parent.value;
      if Below(f, m, up) {
        BelowRank(f, m, up);
      }
      QueryShadowed(f, g, m, prefix, group, up, name);
    }
  }

  /**
    What an observer knows after m told, in f, that each of these actions was added under the prefix (or removed): those
    it watches at m and below are told, whatever the prefix is used for there.
   */
  ghost function Retold(f: Forest, m: nat, prefix: string, actions: map<string, Info>, added: bool, k: Key,
                        seen: Option<Info>): Option<Info>
    requires Linked(f)
  {
    if Named(prefix, k.name) && ActionIn(k.name) in actions && Watches(f, k) && Below(f, m, k.muxer) then
      var found := if added then Some(actions[ActionIn(k.name)]) else None;
      Apply(if added then Added else Removed, FoundAt(f, m, k.name, found, k.muxer), seen)
    else seen
  }

  lemma RetoldMore(f: Forest, views: Views, m: nat, prefix: string, told: map<string, Info>, action: string,
                   info: Info, added: bool, k: Key, seen: Option<Info>)
    requires Linked(f) && '.' !in prefix && action !in told
    requires View(views, k) == Retold(f, m, prefix, told, added, k, seen)
    ensures Told(f, views, m, FullName(prefix, action), if added then Added else Removed,
                 if added then Some(info) else None, k)
            == Retold(f, m, prefix, told[action := info], added, k, seen)
  {
    SplitFull(prefix, action);
  }

  // ---------- exactly when views stay right ----------

  /**
    Before prefix is removed from m: what becomes of the watched name. Where m's group answered, nothing above may
    answer in its place; where another group below m answers, it must not have an action that is told to be gone.
   */
  ghost predicate RemovalRight(g: Forest, m: nat, prefix: string, k: Key)
    requires Linked(g) && m < |g.muxers| && prefix in g.muxers[m].groups && k.muxer < |g.muxers|
  {
    assert LinkedAt(g, m);
    Named(prefix, k.name) && Below(g, m, k.muxer) ==>
      if Hides(g, m, prefix, k.muxer)
      then ActionIn(k.name) in g.groups[g.muxers[m].groups[prefix]].actions ==> Query(g, k.muxer, k.name) == None
      else Above(g, m, k.name) == None
  }

  ghost predicate RemovalSafe(g: Forest, m: nat, prefix: string)
    requires Linked(g) && m < |g.muxers|
  {
    prefix in g.muxers[m].groups ==>
      forall k {:trigger Watches(g, k)} :: Watches(g, k) ==> RemovalRight(g, m, prefix, k)
  }

  lemma RemovalExact(f: Forest, g: Forest, m: nat, prefix: string, group: nat, k: Key, seen: Option<Info>)
    requires Linked(f) && Linked(g) && m < |f.muxers| && OneGroupMore(f, g, m, prefix, group)
    requires Watches(g, k) && seen == Query(g, k.muxer, k.name)
    ensures Retold(g, m, prefix, f.groups[group].actions, false, k, seen) == Query(f, k.muxer, k.name)
            <==> RemovalRight(g, m, prefix, k)
  {
    QueryShadowed(f, g, m, prefix, group, k.muxer, k.name);
    AboveSame(f, g, m, prefix, group, k.name);
  }

  /**
    Before a group is inserted in m under a prefix that m does not use: what becomes of the watched name. Where the
    group is going to answer, it must have the action unless nothing above has it; where another group answers already,
    that group's own muxer must not be told of an action from above that it answers differently itself.
   */
  ghost predicate InsertionRight(f: Forest, m: nat, prefix: string, actions: map<string, Info>, k: Key)
    requires Linked(f) && m < |f.muxers| && k.muxer < |f.muxers|
  {
    Named(prefix, k.name) && Below(f, m, k.muxer) ==>
      if !Hides(f, m, prefix, k.muxer) then ActionIn(k.name) in actions || Above(f, m, k.name) == None
      else
        ActionIn(k.name) in actions && prefix in f.muxers[k.muxer].groups ==>
          var told := ToldFromAbove(f, m, prefix, actions[ActionIn(k.name)], k);
          told == None || told == Query(f, k.muxer, k.name)
  }

  // What the parent of k's muxer is going to answer.
  ghost function ToldFromAbove(f: Forest, m: nat, prefix: string, info: Info, k: Key): Option<Info>
    requires Linked(f) && k.muxer < |f.muxers| && f.muxers[k.muxer].parent.Some?
  {
    var up := f.muxers[k.muxer].parent.value;
    if Hides(f, m, prefix, up) then Query(f, up, k.name) else Some(info)
  }

  ghost predicate InsertionSafe(f: Forest, m: nat, prefix: string, group: nat)
    requires Linked(f) && m < |f.muxers| && group < |f.groups|
  {
    forall k {:trigger Watches(f, k)} :: Watches(f, k) ==> InsertionRight(f, m, prefix, f.groups[group].actions, k)
  }

  lemma InsertionExact(f: Forest, g: Forest, m: nat, prefix: string, group: nat, k: Key, seen: Option<Info>)
    requires Linked(f) && Linked(g) && m < |f.muxers| && OneGroupMore(f, g, m, prefix, group)
    requires Watches(f, k) && Watches(g, k) && seen == Query(f, k.muxer, k.name)
    ensures Retold(g, m, prefix, f.groups[group].actions, true, k, seen) == Query(g, k.muxer, k.name)
            <==> InsertionRight(f, m, prefix, f.groups[group].actions, k)
  {
    QueryShadowed(f, g, m, prefix, group, k.muxer, k.name);
    if Named(prefix, k.name) && ActionIn(k.name) in f.groups[group].actions && Below(f, m, k.muxer) {
      AddedFound(f, g, m, prefix, group, k);
    }
  }

  // What the notification finds at the observer's muxer.
  lemma AddedFound(f: Forest, g: Forest, m: nat, prefix: string, group: nat, k: Key)
    requires Linked(f) && Linked(g) && m < |f.muxers| && OneGroupMore(f, g, m, prefix, group)
    requires k.muxer < |f.muxers| && Below(f, m, k.muxer) && Named(prefix, k.name)
    requires ActionIn(k.name) in f.groups[group].actions
    ensures
      var info := f.groups[group].actions[ActionIn(k.name)];
      FoundAt(g, m, k.name, Some(info), k.muxer)
      == if k.muxer == m then Some(info) else ToldFromAbove(f, m, prefix, info, k)
  {
    assert LinkedAt(f, k.muxer);
    if k.muxer != m {
      assert g.muxers[k.muxer] == f.muxers[k.muxer];
      QueryShadowed(f, g, m, prefix, group, f.muxers[k.muxer].parent.value, k.name);
    }
  }

  // With disjoint prefixes every removal is safe, and so is every insertion that leaves them disjoint.
  lemma DisjointIsSafe(f: Forest, g: Forest, m: nat, prefix: string, group: nat)
    requires Linked(f) && Linked(g) && m < |f.muxers| && OneGroupMore(f, g, m, prefix, group) && Disjoint(g)
    ensures RemovalSafe(g, m, prefix) && InsertionSafe(f, m, prefix, group)
  {
    forall k | Watches(g, k)
      ensures RemovalRight(g, m, prefix, k)
    {
      QueryShadowed(f, g, m, prefix, group, k.muxer, k.name);
      NothingHidden(f, g, m, prefix, group, k.muxer, k.name);
      AboveSame(f, g, m, prefix, group, k.name);
    }
    forall k | Watches(f, k)
      ensures InsertionRight(f, m, prefix, f.groups[group].actions, k)
    {
      NothingHidden(f, g, m, prefix, group, k.muxer, k.name);
    }
  }

  lemma {:induction false} NothingHidden(f: Forest, g: Forest, m: nat, prefix: string, group: nat, x: nat, name: string)
    requires Linked(f) && Linked(g) && m < |f.muxers| && OneGroupMore(f, g, m, prefix, group) && Disjoint(g)
    requires x < |f.muxers|
    ensures Below(f, m, x) ==> !Hides(f, m, prefix, x) && !Hides(g, m, prefix, x)
    ensures Named(prefix, name) ==> Above(f, m, name) == None
    decreases f.height - f.rank[x]
  {
    assert LinkedAt(f, x) && LinkedAt(f, m);
    QueryShadowed(f, g, m, prefix, group, x, name);
    assert prefix in g.muxers[m].groups;
    if x != m && Below(f, m, x) {
      NothingHidden(f, g, m, prefix, group, f.muxers[x].parent.value, name);
    }
    if Named(prefix, name) {
      QueryOneGroupMore(f, g, m, prefix, group, m, name);
    }
  }

  // ---------- listing ----------

  // n names an action of one of m's own groups.
  ghost predicate OwnName(f: Forest, m: nat, name: string)
    requires m < |f.muxers|
  {
    var split := SplitName(name);
    && split.Some? && split.value.prefix in f.muxers[m].groups
    && f.muxers[m].groups[split.value.prefix] < |f.groups|
    && split.value.action in f.groups[f.muxers[m].groups[split.value.prefix]].actions
  }

  // Named by a group of `at` or of a muxer above it.
  ghost predicate Listed(f: Forest, at: Option<nat>, name: string)
    requires Linked(f) && (at.Some? ==> at.value < |f.muxers|)
    decreases if at.Some? then f.height - f.rank[at.value] + 1 else 0
  {
    at.Some? &&
      (OwnName(f, at.value, name) || (assert LinkedAt(f, at.value); Listed(f, f.muxers[at.value].parent, name)))
  }

  // What is answered is listed; and with disjoint prefixes what is listed is answered.
  lemma {:induction false} ListedAnswers(f: Forest, at: nat, name: string)
    requires Linked(f) && at < |f.muxers|
    ensures Query(f, at, name).Some? ==> Listed(f, Some(at), name)
    ensures Disjoint(f) && Listed(f, Some(at), name) ==> Query(f, at, name).Some?
    decreases f.height - f.rank[at]
  {
    assert LinkedAt(f, at);
    var up := f.muxers[at].parent;
    if up.Some? {
      ListedAnswers(f, up.value, name);
      assert up == Some(up.value);
    }
    assert Listed(f, Some(at), name) <==> OwnName(f, at, name) || Listed(f, up, name);
    if Disjoint(f) {
      ListStep(f, at, name);
    }
  }

  // Listed from a muxer strictly below `at`.
  ghost predicate ListedBelow(f: Forest, at: Option<nat>, name: string)
    requires Linked(f)
  {
    exists b :: 0 <= b < |f.muxers| && OwnName(f, b, name)
                && (at.Some? ==> at.value != b && at.value < |f.muxers| && Below(f, at.value, b))
  }

  // One muxer further up: what it adds is new, and the rest is still to be found above it.
  lemma ListStep(f: Forest, at: nat, name: string)
    requires Linked(f) && Disjoint(f) && at < |f.muxers|
    ensures ListedBelow(f, Some(at), name) ==> !OwnName(f, at, name)
    ensures Query(f, at, name).Some? <==>
            OwnName(f, at, name) || (f.muxers[at].parent.Some? && Query(f, f.muxers[at].parent.value, name).Some?)
    ensures OwnName(f, at, name) || ListedBelow(f, Some(at), name) ==> ListedBelow(f, f.muxers[at].parent, name)
  {
    assert LinkedAt(f, at);
    if ListedBelow(f, Some(at), name) {
      var b :| 0 <= b < |f.muxers| && OwnName(f, b, name) && at != b && Below(f, at, b);
      if f.muxers[at].parent.Some? {
        ParentAbove(f, at, b);
      }
    }
    if f.muxers[at].parent.Some? {
      ParentAbove(f, at, at);
      var split := SplitName(name);
      var up := f.muxers[at].parent.value;
      if split.Some? && split.value.prefix in f.muxers[at].groups && Query(f, up, name).Some? {
        if !Claimed(f, up, name) {
          UnclaimedIsUnknown(f, up, name);
        }
        var a := ClaimedFrom(f, up, name);
        BelowRank(f, a, up);
        assert Below(f, a, at);
      }
    }
  }

  lemma ParentAbove(f: Forest, at: nat, b: nat)
    requires Linked(f) && at < |f.muxers| && f.muxers[at].parent.Some? && b < |f.muxers| && Below(f, at, b)
    ensures f.muxers[at].parent.value < |f.muxers|
    ensures f.muxers[at].parent.value != b && Below(f, f.muxers[at].parent.value, b)
  {
    assert LinkedAt(f, at);
    var up := f.muxers[at].parent.value;
    assert Below(f, up, at);
    BelowTrans(f, up, at, b);
    BelowRank(f, at, b);
  }

  // ---------- a muxer changes its parent ----------

  // d is a with m cut off from its parent p; which muxers are connected, and the ranks, may differ.
  ghost predicate Cut(d: Forest, a: Forest, m: nat, p: nat) {
    && |d.muxers| == |a.muxers| && m < |a.muxers| && p < |a.muxers| && d.groups == a.groups
    && a.muxers[m].parent == Some(p) && d.muxers[m].parent == None
    && (forall x {:trigger d.muxers[x]} {:trigger a.muxers[x]} :: 0 <= x < |a.muxers| ==>
         && (x != m ==> d.muxers[x].parent == a.muxers[x].parent)
         && d.muxers[x].groups == a.muxers[x].groups && d.muxers[x].watchers == a.muxers[x].watchers)
  }

  lemma {:induction false} CutBelow(d: Forest, a: Forest, m: nat, p: nat, b: nat, x: nat)
    requires Linked(d) && Linked(a) && Cut(d, a, m, p) && x < |a.muxers|
    ensures Below(d, m, x) <==> Below(a, m, x)
    ensures Below(d, b, x) ==> Below(a, b, x)
    ensures !Below(a, m, x) ==> (Below(d, b, x) <==> Below(a, b, x))
    decreases a.height - a.rank[x]
  {
    assert LinkedAt(a, x) && LinkedAt(d, x);
    if x != m && a.muxers[x].parent.Some? {
      CutBelow(d, a, m, p, b, a.muxers[x].parent.value);
    }
  }

  // A muxer from x up to m has a group under the name's prefix.
  ghost predicate Held(f: Forest, m: nat, x: nat, name: string)
    requires Linked(f) && x < |f.muxers|
    decreases f.height - f.rank[x]
  {
    OwnPrefix(f, x, name) || (x != m && f.muxers[x].parent.Some? && Held(f, m, f.muxers[x].parent.value, name))
  }

  ghost predicate OwnPrefix(f: Forest, x: nat, name: string)
    requires x < |f.muxers|
  {
    SplitName(name).Some? && SplitName(name).value.prefix in f.muxers[x].groups
  }

  // The answers that may differ are those at m and below for which no group on the way to m has the prefix.
  lemma {:induction false} QueryCut(d: Forest, a: Forest, m: nat, p: nat, x: nat, name: string)
    requires Linked(d) && Linked(a) && Cut(d, a, m, p) && x < |a.muxers|
    ensures Held(d, m, x, name) <==> Held(a, m, x, name)
    ensures if Below(a, m, x) && !Held(a, m, x, name)
            then Query(d, x, name) == None && Query(a, x, name) == Query(a, p, name)
            else Query(d, x, name) == Query(a, x, name)
    decreases a.height - a.rank[x]
  {
    assert LinkedAt(a, x) && LinkedAt(d, x);
    assert d.muxers[x].groups == a.muxers[x].groups;
    if x != m && a.muxers[x].parent.Some? {
      QueryCut(d, a, m, p, a.muxers[x].parent.value, name);
    }
  }

  // What is not below m lists and answers the same.
  lemma {:induction false} ListedCut(d: Forest, a: Forest, m: nat, p: nat, at: nat, name: string)
    requires Linked(d) && Linked(a) && Cut(d, a, m, p) && at < |a.muxers| && !Below(a, m, at)
    ensures Query(d, at, name) == Query(a, at, name) && !Below(d, m, at)
    ensures Listed(d, Some(at), name) <==> Listed(a, Some(at), name)
    decreases a.height - a.rank[at]
  {
    assert LinkedAt(a, at) && LinkedAt(d, at);
    QueryCut(d, a, m, p, at, name);
    CutBelow(d, a, m, p, m, at);
    assert d.muxers[at].parent == a.muxers[at].parent;
    if a.muxers[at].parent.Some? {
      ListedCut(d, a, m, p, a.muxers[at].parent.value, name);
    }
  }

  /**
    What an observer knows after m told, in a, that what its parent lists was added (or removed): those of a listed name
    at m and below are told.
   */
  ghost function ToldUp(a: Forest, m: nat, attach: bool, listed: bool, k: Key, seen: Option<Info>): Option<Info>
    requires Linked(a)
  {
    if listed && Watches(a, k) && Below(a, m, k.muxer) then
      if attach then Apply(Added, Above(a, k.muxer, k.name), seen) else None
    else seen
  }

  lemma ToldUpMore(a: Forest, views: Views, m: nat, p: nat, attach: bool, name: string, listed: bool, k: Key,
                   seen: Option<Info>)
    requires Linked(a) && m < |a.muxers| && a.muxers[m].parent == Some(p) && p < |a.muxers|
    requires View(views, k) == ToldUp(a, m, attach, listed, k, seen)
    ensures Told(a, views, m, name, if attach then Added else Removed, if attach then Query(a, p, name) else None, k)
            == ToldUp(a, m, attach, listed || k.name == name, k, seen)
  {
    if k.muxer < |a.muxers| && Below(a, m, k.muxer) {
      assert LinkedAt(a, k.muxer);
    }
  }

  // What m's children, or m itself, are told from above once m is below `parent`.
  ghost function FromAbove(f: Forest, m: nat, parent: nat, x: nat, name: string): Option<Info>
    requires Linked(f) && x < |f.muxers| && parent < |f.muxers|
  {
    if x != m && f.muxers[x].parent.Some? && Held(f, m, f.muxers[x].parent.value, name)
    then Query(f, f.muxers[x].parent.value, name)
    else Query(f, parent, name)
  }

  // What an observer knows after m's parent has changed to `parent`.
  ghost function AfterParent(f: Forest, m: nat, parent: Option<nat>, k: Key, seen: Option<Info>): Option<Info>
    requires Linked(f) && m < |f.muxers| && (parent.Some? ==> parent.value < |f.muxers|)
  {
    assert LinkedAt(f, m);
    if !Watches(f, k) || !Below(f, m, k.muxer) || parent == f.muxers[m].parent then seen
    else
      var left := if Listed(f, f.muxers[m].parent, k.name) then None else seen;
      if Listed(f, parent, k.name) then Apply(Added, FromAbove(f, m, parent.value, k.muxer, k.name), left) else left
  }

  /**
    Before m's parent changes: what becomes of a watched name for which a group on the way to m has the prefix. If the
    new parent lists it and the muxer above the observer's answers it, that must be the answer at the observer's too; if
    not, and the old parent lists it, it must not be answered.
   */
  ghost predicate ParentRight(f: Forest, m: nat, parent: Option<nat>, k: Key)
    requires Linked(f) && m < |f.muxers| && (parent.Some? ==> parent.value < |f.muxers|) && k.muxer < |f.muxers|
  {
    assert LinkedAt(f, m);
    parent != f.muxers[m].parent && Below(f, m, k.muxer) && Held(f, m, k.muxer, k.name) ==>
      if Listed(f, parent, k.name) && FromAbove(f, m, parent.value, k.muxer, k.name).Some?
      then FromAbove(f, m, parent.value, k.muxer, k.name) == Query(f, k.muxer, k.name)
      else Listed(f, f.muxers[m].parent, k.name) ==> Query(f, k.muxer, k.name) == None
  }

  ghost predicate ParentSafe(f: Forest, m: nat, parent: Option<nat>)
    requires Linked(f) && m < |f.muxers| && (parent.Some? ==> parent.value < |f.muxers|)
  {
    forall k {:trigger Watches(f, k)} :: Watches(f, k) ==> ParentRight(f, m, parent, k)
  }

  // The query once m is below `parent`.
  ghost function QueryUnder(f: Forest, m: nat, parent: Option<nat>, x: nat, name: string): Option<Info>
    requires Linked(f) && x < |f.muxers| && (parent.Some? ==> parent.value < |f.muxers|)
  {
    if !Below(f, m, x) || Held(f, m, x, name) then Query(f, x, name)
    else if parent.Some? then Query(f, parent.value, name) else None
  }

  // Without a group of its own under the prefix a muxer answers what the one above it does.
  lemma HeldAbove(f: Forest, m: nat, parent: Option<nat>, x: nat, name: string)
    requires Linked(f) && m < |f.muxers| && x < |f.muxers| && Below(f, m, x)
    requires parent.Some? ==> parent.value < |f.muxers|
    ensures !Held(f, m, x, name) ==>
              (LinkedAt(f, m) && Query(f, x, name) == Above(f, m, name))
              && (parent.Some? ==> FromAbove(f, m, parent.value, x, name) == Query(f, parent.value, name))
    ensures Held(f, m, x, name) && parent.Some? && !OwnPrefix(f, x, name) ==>
              FromAbove(f, m, parent.value, x, name) == Query(f, x, name)
    decreases f.height - f.rank[x]
  {
    assert LinkedAt(f, x) && LinkedAt(f, m);
    if x != m {
      HeldAbove(f, m, parent, f.muxers[x].parent.value, name);
    }
  }

  lemma ParentExact(f: Forest, m: nat, parent: Option<nat>, k: Key, seen: Option<Info>)
    requires Linked(f) && m < |f.muxers| && (parent.Some? ==> parent.value < |f.muxers|)
    requires LinkedAt(f, m) && parent != f.muxers[m].parent
    requires Watches(f, k) && seen == Query(f, k.muxer, k.name)
    ensures AfterParent(f, m, parent, k, seen) == QueryUnder(f, m, parent, k.muxer, k.name)
            <==> ParentRight(f, m, parent, k)
  {
    if Below(f, m, k.muxer) {
      HeldAbove(f, m, parent, k.muxer, k.name);
      if f.muxers[m].parent.Some? {
        ListedAnswers(f, f.muxers[m].parent.value, k.name);
      }
      if parent.Some? {
        ListedAnswers(f, parent.value, k.name);
      }
    }
  }

  // What an observer knows once m, a root of d, has been put below p and has told what p lists.
  ghost function ToldFrom(d: Forest, m: nat, p: nat, k: Key, seen: Option<Info>): Option<Info>
    requires Linked(d) && m < |d.muxers| && p < |d.muxers|
  {
    if Listed(d, Some(p), k.name) && Watches(d, k) && Below(d, m, k.muxer)
    then Apply(Added, FromAbove(d, m, p, k.muxer, k.name), seen) else seen
  }

  lemma AttachedTold(d: Forest, a: Forest, m: nat, p: nat, k: Key, seen: Option<Info>)
    requires Linked(d) && Linked(a) && Cut(d, a, m, p)
    ensures ToldUp(a, m, true, Listed(a, Some(p), k.name), k, seen) == ToldFrom(d, m, p, k, seen)
  {
    BelowRankSelf(a, m, p);
    ListedCut(d, a, m, p, p, k.name);
    if k.muxer < |a.muxers| && Watches(a, k) {
      var x := k.muxer;
      assert LinkedAt(a, x) && a.muxers[x].watchers == d.muxers[x].watchers;
      CutBelow(d, a, m, p, m, x);
      if x != m && a.muxers[x].parent.Some? {
        QueryCut(d, a, m, p, a.muxers[x].parent.value, k.name);
      }
    }
    assert k.muxer < |a.muxers| ==> a.muxers[k.muxer].watchers == d.muxers[k.muxer].watchers;
  }

  // d is f without the link from m to its parent, if there is one.
  ghost predicate Unlinked(d: Forest, f: Forest, m: nat) {
    && |d.muxers| == |f.muxers| && m < |f.muxers|
    && if f.muxers[m].parent.Some? then Cut(d, f, m, f.muxers[m].parent.value) else d == f
  }

  lemma UnlinkedSame(d: Forest, f: Forest, m: nat, at: Option<nat>, x: nat, name: string)
    requires Linked(d) && Linked(f) && Unlinked(d, f, m) && x < |f.muxers|
    requires at.Some? ==> at.value < |f.muxers| && !Below(f, m, at.value)
    ensures at.Some? ==> Query(d, at.value, name) == Query(f, at.value, name) && !Below(d, m, at.value)
    ensures Listed(d, at, name) <==> Listed(f, at, name)
    ensures Below(d, m, x) <==> Below(f, m, x)
    ensures Held(d, m, x, name) <==> Held(f, m, x, name)
    ensures !Below(f, m, x) || Held(f, m, x, name) ==> Query(d, x, name) == Query(f, x, name)
    ensures Below(f, m, x) && !Held(f, m, x, name) ==> Query(d, x, name) == None
  {
    if f.muxers[m].parent.Some? {
      var up := f.muxers[m].parent.value;
      QueryCut(d, f, m, up, x, name);
      CutBelow(d, f, m, up, m, x);
      if at.Some? {
        ListedCut(d, f, m, up, at.value, name);
      }
    } else if Below(f, m, x) && !Held(f, m, x, name) {
      HeldAbove(f, m, None, x, name);
    }
  }

  lemma UnlinkedWatches(d: Forest, f: Forest, m: nat, k: Key)
    requires Unlinked(d, f, m)
    ensures m < |f.muxers| == |d.muxers| && (Watches(d, k) <==> Watches(f, k))
    ensures Watches(f, k) ==> k.muxer < |f.muxers|
  {
    if k.muxer < |f.muxers| {
      assert d.muxers[k.muxer].watchers == f.muxers[k.muxer].watchers;
    }
  }

  // Telling what the old parent listed, and then what the new one lists.
  lemma ParentTold(f: Forest, d: Forest, m: nat, parent: Option<nat>, k: Key, seen: Option<Info>)
    requires Linked(f) && Linked(d) && Unlinked(d, f, m) && LinkedAt(f, m) && parent != f.muxers[m].parent
    requires parent.Some? ==> parent.value < |f.muxers| && !Below(f, m, parent.value)
    ensures
      var left := if f.muxers[m].parent.Some? then ToldUp(f, m, false, Listed(f, f.muxers[m].parent, k.name), k, seen)
                  else seen;
      AfterParent(f, m, parent, k, seen) == if parent.Some? then ToldFrom(d, m, parent.value, k, left) else left
  {
    assert !Listed(f, None, k.name) && !Listed(d, None, k.name);
    UnlinkedWatches(d, f, m, k);
    hide Query, Below, Held, Listed, Linked, LinkedAt, FromAbove, Watches, Cut, Unlinked, Apply, WatchersOf;
    if k.muxer < |f.muxers| {
      UnlinkedSame(d, f, m, parent, k.muxer, k.name);
      if parent.Some? && Below(f, m, k.muxer) {
        UnlinkedFromAbove(d, f, m, parent.value, k.muxer, k.name);
      }
    }
  }

  lemma UnlinkedFromAbove(d: Forest, f: Forest, m: nat, parent: nat, x: nat, name: string)
    requires Linked(f) && Linked(d) && Unlinked(d, f, m) && x < |f.muxers| && parent < |f.muxers|
    requires !Below(f, m, parent) && Below(f, m, x)
    ensures FromAbove(d, m, parent, x, name) == FromAbove(f, m, parent, x, name)
  {
    assert LinkedAt(f, x);
    UnlinkedSame(d, f, m, Some(parent), x, name);
    assert x != m ==> d.muxers[x].parent == f.muxers[x].parent;
    if x != m && f.muxers[x].parent.Some? {
      UnlinkedSame(d, f, m, Some(parent), f.muxers[x].parent.value, name);
    }
  }

  lemma UnderAnswers(f: Forest, d: Forest, c: Forest, m: nat, parent: Option<nat>, x: nat, name: string)
    requires Linked(f) && Linked(d) && Linked(c) && Unlinked(d, f, m) && x < |f.muxers|
    requires parent.Some? ==> parent.value < |f.muxers| && !Below(f, m, parent.value) && Cut(d, c, m, parent.value)
    requires parent.None? ==> c == d
    ensures Query(c, x, name) == QueryUnder(f, m, parent, x, name)
  {
    UnlinkedSame(d, f, m, parent, x, name);
    if parent.Some? {
      QueryCut(d, c, m, parent.value, x, name);
      BelowRankSelf(c, m, parent.value);
      CutBelow(d, c, m, parent.value, m, x);
      ListedCut(d, c, m, parent.value, parent.value, name);
    }
  }

  // What all observers know after a change of parent, and exactly when views stay right.
  lemma ParentViews(f: Forest, d: Forest, c: Forest, m: nat, parent: Option<nat>, views: Views, views': Views)
    requires Linked(f) && Linked(d) && Linked(c) && Unlinked(d, f, m) && m < |f.muxers| && LinkedAt(f, m)
    requires parent != f.muxers[m].parent && SameWatchers(f, c)
    requires parent.Some? ==> parent.value < |f.muxers| && !Below(f, m, parent.value) && Cut(d, c, m, parent.value)
    requires parent.None? ==> c == d
    requires forall k :: View(views', k) == AfterParent(f, m, parent, k, View(views, k))
    ensures Agree(f, views) ==> (Agree(c, views') <==> ParentSafe(f, m, parent))
  {
    hide Linked, AfterParent, ParentRight, QueryUnder, Cut, Unlinked;
    if Agree(f, views) {
      forall k | Watches(f, k)
        ensures Watches(c, k)
        ensures View(views', k) == Query(c, k.muxer, k.name) <==> ParentRight(f, m, parent, k)
      {
        ParentExact(f, m, parent, k, View(views, k));
        UnderAnswers(f, d, c, m, parent, k.muxer, k.name);
      }
      assert forall k :: Watches(c, k) ==> Watches(f, k);
    }
  }

  lemma NothingToldUp(a: Forest, m: nat, attach: bool, views: Views)
    requires Linked(a)
    ensures forall k :: View(views, k) == ToldUp(a, m, attach, false, k, View(views, k))
  {
  }

  lemma LinkThere(f: Forest, m: nat)
    requires Linked(f) && m < |f.muxers|
    ensures LinkedAt(f, m)
  {
  }

  lemma ParentKept(f: Forest, m: nat, views: Views)
    requires Linked(f) && m < |f.muxers| && LinkedAt(f, m)
    ensures forall k :: View(views, k) == AfterParent(f, m, f.muxers[m].parent, k, View(views, k))
    ensures ParentSafe(f, m, f.muxers[m].parent)
  {
  }

  lemma UnlinkedApart(d: Forest, f: Forest, m: nat, p: nat)
    requires Linked(d) && Linked(f) && Unlinked(d, f, m) && p < |f.muxers| && !Below(f, m, p)
    ensures !Below(d, m, p) && (Apart(f, m, p) ==> Apart(d, m, p))
  {
    if f.muxers[m].parent.Some? {
      CutBelow(d, f, m, f.muxers[m].parent.value, m, p);
      if Apart(f, m, p) {
        StillApart(d, f, m, f.muxers[m].parent.value, p);
      }
    }
  }

  // With disjoint prefixes, before and after, every change of parent is safe.
  lemma DisjointParentSafe(f: Forest, m: nat, parent: Option<nat>)
    requires Linked(f) && Disjoint(f) && m < |f.muxers|
    requires parent.Some? ==> parent.value < |f.muxers| && Apart(f, m, parent.value)
    ensures ParentSafe(f, m, parent)
  {
    forall k | Watches(f, k)
      ensures ParentRight(f, m, parent, k)
    {
      if Below(f, m, k.muxer) && Held(f, m, k.muxer, k.name) {
        var b := HeldAt(f, m, k.muxer, k.name);
        assert LinkedAt(f, m);
        if parent.Some? && Listed(f, parent, k.name) {
          var a := ListedAt(f, parent.value, k.name);
        }
        if f.muxers[m].parent.Some? && Listed(f, f.muxers[m].parent, k.name) {
          var a := ListedAt(f, f.muxers[m].parent.value, k.name);
          ParentAbove(f, m, b);
          BelowTrans(f, a, f.muxers[m].parent.value, b);
          BelowRank(f, f.muxers[m].parent.value, b);
          BelowRank(f, a, f.muxers[m].parent.value);
        }
      }
    }
  }

  lemma {:induction false} HeldAt(f: Forest, m: nat, x: nat, name: string) returns (b: nat)
    requires Linked(f) && x < |f.muxers| && Held(f, m, x, name) && Below(f, m, x)
    ensures b < |f.muxers| && OwnPrefix(f, b, name) && Below(f, m, b)
    decreases f.height - f.rank[x]
  {
    if OwnPrefix(f, x, name) {
      return x;
    }
    assert LinkedAt(f, x);
    b := HeldAt(f, m, f.muxers[x].parent.value, name);
  }

  lemma {:induction false} ListedAt(f: Forest, p: nat, name: string) returns (a: nat)
    requires Linked(f) && p < |f.muxers| && Listed(f, Some(p), name)
    ensures a < |f.muxers| && OwnPrefix(f, a, name) && Below(f, a, p)
    decreases f.height - f.rank[p]
  {
    if OwnName(f, p, name) {
      return p;
    }
    assert LinkedAt(f, p);
    a := ListedAt(f, f.muxers[p].parent.value, name);
  }

  // a with m no longer connected to its parent p, which it has forgotten.
  ghost function DetachedFrom(a: Forest, m: nat, p: nat): Forest
    requires m < |a.muxers| && p < |a.muxers|
  {
    a.(muxers := a.muxers[p := a.muxers[p].(children := Without(a.muxers[p].children, m))]
                         [m := a.muxers[m].(parent := None)])
  }

  lemma DetachLinks(a: Forest, m: nat, p: nat)
    requires Linked(a) && m < |a.muxers| && p < |a.muxers| && p != m && a.muxers[m].parent == Some(p)
    ensures Linked(DetachedFrom(a, m, p)) && Cut(DetachedFrom(a, m, p), a, m, p)
  {
    var d := DetachedFrom(a, m, p);
    assert LinkedAt(a, m) && LinkedAt(a, p);
    WithoutDistinct(a.muxers[p].children, m);
    forall x | 0 <= x < |d.muxers|
      ensures LinkedAt(d, x)
    {
      assert LinkedAt(a, x);
      if x != p && x != m {
        assert m !in a.muxers[x].children;
        assert d.muxers[x] == a.muxers[x];
      }
    }
  }

  lemma DetachKeeps(a: Forest, m: nat, p: nat)
    requires Linked(a) && ChildrenKnown(a, None) && Wired(a)
    requires m < |a.muxers| && p < |a.muxers| && p != m && a.muxers[m].parent == Some(p)
    ensures
      var d := DetachedFrom(a, m, p);
      Linked(d) && ChildrenKnown(d, None) && Wired(d) && Cut(d, a, m, p) && (Disjoint(a) ==> Disjoint(d))
  {
    var d := DetachedFrom(a, m, p);
    DetachLinks(a, m, p);
    forall x | 0 <= x < |d.muxers| && d.muxers[x].parent.Some?
      ensures x in d.muxers[d.muxers[x].parent.value].children
    {
      assert a.muxers[x].parent == d.muxers[x].parent;
      assert x in a.muxers[a.muxers[x].parent.value].children;
    }
    WiredSame(a, d);
    if Disjoint(a) {
      CutDisjoint(d, a, m, p);
    }
  }

  lemma WiredSame(f: Forest, g: Forest)
    requires Wired(f) && |g.muxers| == |f.muxers| && g.groups == f.groups
    requires forall x {:trigger g.muxers[x]} :: 0 <= x < |g.muxers| ==> g.muxers[x].groups == f.muxers[x].groups
    ensures Wired(g)
  {
    forall m, p | 0 <= m < |g.muxers| && p in g.muxers[m].groups
      ensures g.muxers[m].groups[p] < |g.groups| && Binding(m, p) in g.groups[g.muxers[m].groups[p]].listeners
    {
      assert p in f.muxers[m].groups;
    }
    forall y, b | 0 <= y < |g.groups| && b in g.groups[y].listeners
      ensures b.muxer < |g.muxers| && b.prefix in g.muxers[b.muxer].groups && g.muxers[b.muxer].groups[b.prefix] == y
    {
      assert b in f.groups[y].listeners;
    }
  }

  lemma CutDisjoint(d: Forest, a: Forest, m: nat, p: nat)
    requires Linked(d) && Linked(a) && Cut(d, a, m, p) && Disjoint(a)
    ensures Disjoint(d)
  {
    forall b, x, q | 0 <= b < |d.muxers| && 0 <= x < |d.muxers| && b != x && Below(d, b, x) && q in d.muxers[b].groups
      ensures q !in d.muxers[x].groups
    {
      CutBelow(d, a, m, p, b, x);
      assert q in a.muxers[b].groups;
    }
  }

  // No prefix is used both at p or above it and at m or below it.
  ghost predicate Apart(f: Forest, m: nat, p: nat)
    requires Linked(f) && p < |f.muxers|
  {
    forall b, x, q {:trigger q in f.muxers[b].groups, q in f.muxers[x].groups} ::
      0 <= b < |f.muxers| && 0 <= x < |f.muxers| && Below(f, b, p) && Below(f, m, x) && q in f.muxers[b].groups ==>
        q !in f.muxers[x].groups
  }

  // Ranks for the forest in which m, a root of d, is put below p.
  ghost function RankBelow(d: Forest, m: nat): (r: seq<nat>)
    requires Linked(d)
    ensures |r| == |d.muxers|
  {
    seq(|d.muxers|, x requires 0 <= x < |d.muxers| => if Below(d, m, x) then d.rank[x] else d.rank[x] + d.height)
  }

  ghost function PutBelow(d: Forest, m: nat, p: nat): Forest
    requires Linked(d) && m < |d.muxers|
  {
    Forest(d.muxers[m := d.muxers[m].(parent := Some(p))], d.groups, RankBelow(d, m), 2 * d.height)
  }

  lemma PutBelowLinked(d: Forest, m: nat, p: nat)
    requires Linked(d) && m < |d.muxers| && p < |d.muxers| && d.muxers[m].parent == None && !Below(d, m, p)
    requires ChildrenKnown(d, None)
    ensures Linked(PutBelow(d, m, p)) && ChildrenKnown(PutBelow(d, m, p), Some(m))
    ensures Cut(d, PutBelow(d, m, p), m, p)
  {
    var a := PutBelow(d, m, p);
    forall x | 0 <= x < |a.muxers|
      ensures LinkedAt(a, x)
    {
      assert LinkedAt(d, x);
      if d.muxers[x].parent.Some? {
        assert LinkedAt(d, d.muxers[x].parent.value);
      }
      assert m !in d.muxers[x].children;
    }
  }

  lemma {:induction false} PutBelowChain(d: Forest, a: Forest, m: nat, p: nat, b: nat, x: nat)
    requires Linked(d) && Linked(a) && Cut(d, a, m, p) && x < |a.muxers| && Below(a, b, x)
    ensures Below(d, b, x) || (Below(d, m, x) && Below(a, b, p))
    decreases a.height - a.rank[x]
  {
    if x != b && x != m {
      PutBelowChain(d, a, m, p, b, a.muxers[x].parent.value);
    }
  }

  // Exactly then does it keep them disjoint.
  lemma PutBelowDisjoint(d: Forest, a: Forest, m: nat, p: nat)
    requires Linked(d) && Linked(a) && Cut(d, a, m, p) && Disjoint(d)
    ensures Disjoint(a) <==> Apart(d, m, p)
  {
    BelowRankSelf(a, m, p);
    if Apart(d, m, p) {
      forall b, x, q | 0 <= b < |a.muxers| && 0 <= x < |a.muxers| && b != x && Below(a, b, x)
                       && q in a.muxers[b].groups
        ensures q !in a.muxers[x].groups
      {
        PutBelowChain(d, a, m, p, b, x);
        CutBelow(d, a, m, p, b, p);
        assert q in d.muxers[b].groups;
      }
    }
    if Disjoint(a) {
      forall b, x, q | 0 <= b < |d.muxers| && 0 <= x < |d.muxers| && Below(d, b, p) && Below(d, m, x)
                       && q in d.muxers[b].groups
        ensures q !in d.muxers[x].groups
      {
        AboveAndBelow(d, a, m, p, b, x);
        assert q in a.muxers[b].groups;
      }
    }
  }

  // What is above p in d is above what is below m, and another muxer.
  lemma AboveAndBelow(d: Forest, a: Forest, m: nat, p: nat, b: nat, x: nat)
    requires Linked(d) && Linked(a) && Cut(d, a, m, p) && b < |d.muxers| && x < |d.muxers|
    requires Below(d, b, p) && Below(d, m, x)
    ensures b != x && Below(a, b, x)
  {
    CutBelow(d, a, m, p, b, p);
    CutBelow(d, a, m, p, m, x);
    assert Below(a, p, m) by { assert Below(a, p, p); }
    BelowTrans(a, p, m, x);
    BelowTrans(a, b, p, x);
    BelowRank(a, b, p);
    BelowRank(a, m, x);
    assert LinkedAt(a, m);
  }

  // A parent is not below its child.
  lemma BelowRankSelf(a: Forest, m: nat, p: nat)
    requires Linked(a) && m < |a.muxers| && a.muxers[m].parent == Some(p)
    ensures p < |a.muxers| && !Below(a, m, p)
  {
    assert LinkedAt(a, m);
    if Below(a, m, p) {
      BelowRank(a, m, p);
    }
  }

  // Connecting to the new parent's signals comes last.
  lemma ConnectKeeps(a: Forest, c: Forest, m: nat, p: nat)
    requires Linked(a) && ChildrenKnown(a, Some(m)) && Wired(a)
    requires m < |a.muxers| && p < |a.muxers| && p != m && a.muxers[m].parent == Some(p) && m !in a.muxers[p].children
    requires c == a.(muxers := a.muxers[p := a.muxers[p].(children := a.muxers[p].children + [m])])
    ensures Linked(c) && ChildrenKnown(c, None) && Wired(c) && (Disjoint(a) ==> Disjoint(c))
  {
    forall x | 0 <= x < |c.muxers|
      ensures LinkedAt(c, x)
    {
      assert LinkedAt(a, x);
    }
    forall x | 0 <= x < |c.muxers| && c.muxers[x].parent.Some?
      ensures x in c.muxers[c.muxers[x].parent.value].children
    {
      assert x != m ==> x in a.muxers[a.muxers[x].parent.value].children;
    }
    WiredSame(a, c);
    SameButChildren(a, c, map[]);
  }

  // Connections matter to no query.
  lemma SameButChildren(a: Forest, c: Forest, views: Views)
    requires Linked(a) && Linked(c) && |c.muxers| == |a.muxers| && c.groups == a.groups
    requires c.rank == a.rank && c.height == a.height
    requires forall x {:trigger c.muxers[x]} {:trigger a.muxers[x]} :: 0 <= x < |a.muxers| ==>
               c.muxers[x] == a.muxers[x].(children := c.muxers[x].children)
    ensures Disjoint(a) ==> Disjoint(c)
    ensures Agree(a, views) ==> Agree(c, views)
  {
    if Disjoint(a) {
      forall b, x, q | 0 <= b < |c.muxers| && 0 <= x < |c.muxers| && b != x && Below(c, b, x) && q in c.muxers[b].groups
        ensures q !in c.muxers[x].groups
      {
        SameAnswers(a, c, b, x, "");
        assert q in a.muxers[b].groups;
      }
    }
    if Agree(a, views) {
      forall k | Watches(c, k)
        ensures View(views, k) == Query(c, k.muxer, k.name)
      {
        assert c.muxers[k.muxer].watchers == a.muxers[k.muxer].watchers;
        assert Watches(a, k);
        SameAnswers(a, c, 0, k.muxer, k.name);
      }
    }
  }

  lemma {:induction false} SameAnswers(a: Forest, c: Forest, b: nat, x: nat, name: string)
    requires Linked(a) && Linked(c) && |c.muxers| == |a.muxers| && c.groups == a.groups
    requires c.rank == a.rank && c.height == a.height && x < |a.muxers|
    requires forall y {:trigger c.muxers[y]} {:trigger a.muxers[y]} :: 0 <= y < |a.muxers| ==>
               c.muxers[y].parent == a.muxers[y].parent && c.muxers[y].groups == a.muxers[y].groups
    ensures Query(c, x, name) == Query(a, x, name)
    ensures Below(c, b, x) <==> Below(a, b, x)
    decreases a.height - a.rank[x]
  {
    assert LinkedAt(a, x) && c.muxers[x].parent == a.muxers[x].parent;
    if a.muxers[x].parent.Some? {
      SameAnswers(a, c, b, a.muxers[x].parent.value, name);
    }
  }

  // ---------- observers ----------

  // An observer's weak reference, whose notification is handed the address of an Action struct.
  datatype WeakRef = WeakRef(observer: nat, action: nat)

  function Prepend(ms: seq<Muxer>, m: nat, name: string, observer: nat): (r: seq<Muxer>)
    requires m < |ms|
    ensures |r| == |ms|
  {
    ms[m := ms[m].(watchers := ms[m].watchers[name := [observer] + WatchersOf(ms[m], name)])]
  }

  // gtk_action_muxer_unregister_internal on the entry of `name`: an emptied list takes the entry with it.
  function Drop(ms: seq<Muxer>, m: nat, name: string, observer: nat): (r: seq<Muxer>)
    requires m < |ms| && name in ms[m].watchers
    ensures |r| == |ms|
  {
    var left := RemoveFirst(ms[m].watchers[name], observer);
    ms[m := ms[m].(watchers := if left == [] then ms[m].watchers - {name} else ms[m].watchers[name := left])]
  }

  // An action's entry exists exactly while its list is not empty, and knows its muxer and name.
  ghost predicate Addressed(ms: seq<Muxer>, addresses: map<Spot, nat>, actionAt: map<nat, Spot>) {
    EntriesKnown(ms, addresses) && Inverse(addresses, actionAt)
  }

  ghost predicate EntriesKnown(ms: seq<Muxer>, addresses: map<Spot, nat>) {
    && (forall m, n {:trigger n in ms[m].watchers} :: 0 <= m < |ms| && n in ms[m].watchers ==>
         ms[m].watchers[n] != [] && Spot(m, n) in addresses)
    && (forall s {:trigger s in addresses} :: s in addresses ==>
         s.muxer < |ms| && s.name in ms[s.muxer].watchers)
  }

  ghost predicate Inverse(addresses: map<Spot, nat>, actionAt: map<nat, Spot>) {
    && (forall s {:trigger s in addresses} :: s in addresses ==>
         addresses[s] in actionAt && actionAt[addresses[s]] == s)
    && (forall a {:trigger a in actionAt} :: a in actionAt ==> actionAt[a] in addresses && addresses[actionAt[a]] == a)
  }

  // How often the observer is in the action's list.
  function Times(ms: seq<Muxer>, k: Key): nat {
    if k.muxer < |ms| then multiset(WatchersOf(ms[k.muxer], k.name))[k.observer] else 0
  }

  ghost predicate RefsMatch(ms: seq<Muxer>, addresses: map<Spot, nat>, actionAt: map<nat, Spot>,
                            refs: multiset<WeakRef>) {
    forall o: nat, a: nat :: refs[WeakRef(o, a)] ==
      if a in actionAt then Times(ms, Key(o, actionAt[a].muxer, actionAt[a].name)) else 0
  }

  ghost predicate TimesMatch(ms: seq<Muxer>, registered: multiset<Key>) {
    forall k :: registered[k] == Times(ms, k)
  }

  // Only watchers differ.
  ghost predicate OnlyWatchers(f: Forest, g: Forest) {
    && |g.muxers| == |f.muxers| && g.groups == f.groups && g.rank == f.rank && g.height == f.height
    && forall x {:trigger f.muxers[x]} {:trigger g.muxers[x]} :: 0 <= x < |f.muxers| ==>
         g.muxers[x] == f.muxers[x].(watchers := g.muxers[x].watchers)
  }

  // Who watches matters to no query.
  lemma WatchersSound(f: Forest, g: Forest)
    requires Linked(f) && ChildrenKnown(f, None) && Wired(f) && OnlyWatchers(f, g)
    ensures Linked(g) && ChildrenKnown(g, None) && Wired(g) && (Disjoint(f) ==> Disjoint(g))
  {
    forall x | 0 <= x < |g.muxers|
      ensures LinkedAt(g, x)
    {
      assert LinkedAt(f, x);
    }
    forall x | 0 <= x < |g.muxers| && g.muxers[x].parent.Some?
      ensures x in g.muxers[g.muxers[x].parent.value].children
    {
      assert x in f.muxers[f.muxers[x].parent.value].children;
    }
    WiredSame(f, g);
    if Disjoint(f) {
      DisjointWatchers(f, g);
    }
  }

  // A new watcher's view must be right.
  lemma WatchersKeep(f: Forest, g: Forest, views: Views, views': Views)
    requires Linked(f) && Linked(g) && Agree(f, views) && OnlyWatchers(f, g)
    requires forall k {:trigger Watches(g, k)} :: Watches(g, k) ==>
               View(views', k) == if Watches(f, k) then View(views, k) else Query(f, k.muxer, k.name)
    ensures Agree(g, views')
  {
    forall k | Watches(g, k)
      ensures View(views', k) == Query(g, k.muxer, k.name)
    {
      SameAnswers(f, g, 0, k.muxer, k.name);
    }
  }

  lemma DisjointWatchers(f: Forest, g: Forest)
    requires Linked(f) && Linked(g) && Disjoint(f) && OnlyWatchers(f, g)
    ensures Disjoint(g)
  {
    forall b, x, q | 0 <= b < |g.muxers| && 0 <= x < |g.muxers| && b != x && Below(g, b, x) && q in g.muxers[b].groups
      ensures q !in g.muxers[x].groups
    {
      SameAnswers(f, g, b, x, "");
      assert q in f.muxers[b].groups;
    }
  }

  lemma TimesPrepend(ms: seq<Muxer>, m: nat, name: string, observer: nat, k: Key)
    requires m < |ms|
    ensures Times(Prepend(ms, m, name, observer), k)
            == Times(ms, k) + if k == Key(observer, m, name) then 1 else 0
  {
  }

  lemma TimesDrop(ms: seq<Muxer>, m: nat, name: string, observer: nat, k: Key)
    requires m < |ms| && name in ms[m].watchers && observer in ms[m].watchers[name]
    ensures Times(Drop(ms, m, name, observer), k)
            == Times(ms, k) - if k == Key(observer, m, name) then 1 else 0
  {
    var left := RemoveFirst(ms[m].watchers[name], observer);
    RemoveFirstCounts(ms[m].watchers[name], observer);
    assert multiset(ms[m].watchers[name])[observer] > 0;
    assert k.muxer == m && k.name == name ==>
        multiset(WatchersOf(Drop(ms, m, name, observer)[m], name)) == multiset(left);
  }

  lemma PrependAddressed(ms: seq<Muxer>, m: nat, name: string, observer: nat, addresses: map<Spot, nat>,
                         actionAt: map<nat, Spot>, address: nat)
    requires Addressed(ms, addresses, actionAt) && m < |ms|
    requires Spot(m, name) in addresses || address !in actionAt
    ensures
      var known := Spot(m, name) in addresses;
      Addressed(Prepend(ms, m, name, observer), if known then addresses else addresses[Spot(m, name) := address],
                if known then actionAt else actionAt[address := Spot(m, name)])
  {
    hide Prepend, EntriesKnown, Inverse;
    PrependEntries(ms, m, name, observer, addresses, if Spot(m, name) in addresses then 0 else address);
    if Spot(m, name) !in addresses {
      InverseMore(addresses, actionAt, Spot(m, name), address);
    }
  }

  lemma PrependEntries(ms: seq<Muxer>, m: nat, name: string, observer: nat, addresses: map<Spot, nat>, address: nat)
    requires EntriesKnown(ms, addresses) && m < |ms|
    ensures EntriesKnown(Prepend(ms, m, name, observer),
                         if Spot(m, name) in addresses then addresses else addresses[Spot(m, name) := address])
  {
    var ms' := Prepend(ms, m, name, observer);
    forall x, n | 0 <= x < |ms'| && n in ms'[x].watchers
      ensures ms'[x].watchers[n] != [] && (x != m || n != name ==> Spot(x, n) in addresses)
    {
      assert x != m || n != name ==> n in ms[x].watchers;
    }
  }

  lemma InverseMore(addresses: map<Spot, nat>, actionAt: map<nat, Spot>, s: Spot, a: nat)
    requires Inverse(addresses, actionAt) && s !in addresses && a !in actionAt
    ensures Inverse(addresses[s := a], actionAt[a := s])
  {
  }

  lemma InverseLess(addresses: map<Spot, nat>, actionAt: map<nat, Spot>, s: Spot)
    requires Inverse(addresses, actionAt) && s in addresses
    ensures Inverse(addresses - {s}, actionAt - {addresses[s]})
  {
  }

  lemma DropAddressed(ms: seq<Muxer>, m: nat, name: string, observer: nat, addresses: map<Spot, nat>,
                      actionAt: map<nat, Spot>)
    requires Addressed(ms, addresses, actionAt) && m < |ms| && Spot(m, name) in addresses
    requires name in ms[m].watchers && observer in ms[m].watchers[name]
    ensures
      var ms' := Drop(ms, m, name, observer);
      var gone := name !in ms'[m].watchers;
      Addressed(ms', if gone then addresses - {Spot(m, name)} else addresses,
                if gone then actionAt - {addresses[Spot(m, name)]} else actionAt)
  {
    hide Drop, Addressed;
    DropEntries(ms, m, name, observer);
    if name in Drop(ms, m, name, observer)[m].watchers {
      EntryKept(ms, Drop(ms, m, name, observer), m, name, addresses, actionAt);
    } else {
      EntryGone(ms, Drop(ms, m, name, observer), m, name, addresses, actionAt);
    }
  }

  lemma EntryKept(ms: seq<Muxer>, ms': seq<Muxer>, m: nat, name: string, addresses: map<Spot, nat>,
                  actionAt: map<nat, Spot>)
    requires Addressed(ms, addresses, actionAt) && m < |ms| == |ms'| && Spot(m, name) in addresses
    requires SameEntriesBut(ms, ms', m, name)
    requires name in ms'[m].watchers && ms'[m].watchers[name] != []
    ensures Addressed(ms', addresses, actionAt)
  {
    forall x, n | 0 <= x < |ms'| && n in ms'[x].watchers
      ensures ms'[x].watchers[n] != [] && Spot(x, n) in addresses
    {
      assert x != m || n != name ==> n in ms[x].watchers;
    }
  }

  lemma EntryGone(ms: seq<Muxer>, ms': seq<Muxer>, m: nat, name: string, addresses: map<Spot, nat>,
                  actionAt: map<nat, Spot>)
    requires Addressed(ms, addresses, actionAt) && m < |ms| == |ms'| && Spot(m, name) in addresses
    requires SameEntriesBut(ms, ms', m, name) && name !in ms'[m].watchers
    ensures Addressed(ms', addresses - {Spot(m, name)}, actionAt - {addresses[Spot(m, name)]})
  {
    hide Inverse;
    InverseLess(addresses, actionAt, Spot(m, name));
    forall x, n | 0 <= x < |ms'| && n in ms'[x].watchers
      ensures ms'[x].watchers[n] != [] && Spot(x, n) in addresses
    {
      assert n in ms[x].watchers;
    }
  }

  // All entries but one are the same.
  ghost predicate SameEntriesBut(ms: seq<Muxer>, ms': seq<Muxer>, m: nat, name: string) {
    |ms'| == |ms| && forall x, n {:trigger n in ms'[x].watchers} {:trigger n in ms[x].watchers} ::
      0 <= x < |ms| && (x != m || n != name) ==>
        && (n in ms'[x].watchers <==> n in ms[x].watchers)
        && (n in ms[x].watchers ==> ms'[x].watchers[n] == ms[x].watchers[n])
  }

  // Only the emptied entry goes.
  lemma DropEntries(ms: seq<Muxer>, m: nat, name: string, observer: nat)
    requires m < |ms| && name in ms[m].watchers
    ensures
      var ms' := Drop(ms, m, name, observer);
      (name in ms'[m].watchers ==> ms'[m].watchers[name] != []) && SameEntriesBut(ms, ms', m, name)
  {
  }

  lemma PrependRefs(ms: seq<Muxer>, m: nat, name: string, observer: nat, addresses: map<Spot, nat>,
                    actionAt: map<nat, Spot>, address: nat, refs: multiset<WeakRef>)
    requires Addressed(ms, addresses, actionAt) && RefsMatch(ms, addresses, actionAt, refs) && m < |ms|
    requires if Spot(m, name) in addresses then address == addresses[Spot(m, name)] else address !in actionAt
    ensures
      RefsMatch(Prepend(ms, m, name, observer), addresses[Spot(m, name) := address],
                actionAt[address := Spot(m, name)], refs + multiset{WeakRef(observer, address)})
  {
    var ms' := Prepend(ms, m, name, observer);
    var actionAt' := actionAt[address := Spot(m, name)];
    var refs' := refs + multiset{WeakRef(observer, address)};
    forall o: nat, a: nat
      ensures refs'[WeakRef(o, a)] ==
              if a in actionAt' then Times(ms', Key(o, actionAt'[a].muxer, actionAt'[a].name)) else 0
    {
      assert a == address && a !in actionAt ==> name !in ms[m].watchers;
      if a in actionAt' {
        TimesPrepend(ms, m, name, observer, Key(o, actionAt'[a].muxer, actionAt'[a].name));
      }
    }
  }

  lemma DropRefs(ms: seq<Muxer>, m: nat, name: string, observer: nat, addresses: map<Spot, nat>,
                 actionAt: map<nat, Spot>, refs: multiset<WeakRef>)
    requires Addressed(ms, addresses, actionAt) && m < |ms| && Spot(m, name) in addresses
    requires observer in ms[m].watchers[name]
    requires RefsMatch(ms, addresses, actionAt, refs + multiset{WeakRef(observer, addresses[Spot(m, name)])})
    ensures
      var ms' := Drop(ms, m, name, observer);
      var gone := name !in ms'[m].watchers;
      RefsMatch(ms', if gone then addresses - {Spot(m, name)} else addresses,
                if gone then actionAt - {addresses[Spot(m, name)]} else actionAt, refs)
  {
    var ms' := Drop(ms, m, name, observer);
    var a := addresses[Spot(m, name)];
    var all := refs + multiset{WeakRef(observer, a)};
    var gone := name !in ms'[m].watchers;
    var actionAt' := if gone then actionAt - {a} else actionAt;
    forall o: nat, b: nat
      ensures refs[WeakRef(o, b)] ==
              if b in actionAt' then Times(ms', Key(o, actionAt'[b].muxer, actionAt'[b].name)) else 0
    {
      assert all[WeakRef(o, b)] ==
             if b in actionAt then Times(ms, Key(o, actionAt[b].muxer, actionAt[b].name)) else 0;
      if b in actionAt {
        TimesDrop(ms, m, name, observer, Key(o, actionAt[b].muxer, actionAt[b].name));
      }
    }
  }

  // ---------- a prefix used twice along a chain ----------

  // a and m both use the prefix, and no muxer in between does.
  ghost predicate NearestShared(f: Forest, a: nat, m: nat, prefix: string)
    requires Linked(f)
  {
    && a < |f.muxers| && m < |f.muxers| && a != m && Below(f, a, m) && f.muxers[m].parent.Some?
    && prefix in f.muxers[a].groups && prefix in f.muxers[m].groups
    && f.muxers[m].parent.value < |f.muxers| && !Hides(f, a, prefix, f.muxers[m].parent.value)
  }

  // Prefixes are disjoint along the chains exactly when nothing of the kind is there.
  lemma DisjointUnlessShared(f: Forest)
    requires Linked(f)
    ensures Disjoint(f) <==> forall a, m, prefix :: !NearestShared(f, a, m, prefix)
  {
    if !Disjoint(f) {
      var a, m, prefix :| 0 <= a < |f.muxers| && 0 <= m < |f.muxers| && a != m && Below(f, a, m)
                          && prefix in f.muxers[a].groups && prefix in f.muxers[m].groups;
      assert LinkedAt(f, m);
      var up := f.muxers[m].parent.value;
      var b := NearestAbove(f, a, up, prefix);
      BelowRank(f, b, up);
      assert NearestShared(f, b, m, prefix);
    }
  }

  lemma {:induction false} NearestAbove(f: Forest, a: nat, x: nat, prefix: string) returns (b: nat)
    requires Linked(f) && a < |f.muxers| && x < |f.muxers| && Below(f, a, x) && prefix in f.muxers[a].groups
    ensures b < |f.muxers| && Below(f, b, x) && prefix in f.muxers[b].groups && !Hides(f, b, prefix, x)
    decreases f.height - f.rank[x]
  {
    assert LinkedAt(f, x);
    if prefix in f.muxers[x].groups {
      b := x;
    } else {
      b := NearestAbove(f, a, f.muxers[x].parent.value, prefix);
    }
  }

  // A group answers wherever no other one hides it.
  lemma {:induction false} UnhiddenAnswers(f: Forest, a: nat, x: nat, prefix: string, action: string)
    requires Linked(f) && a < |f.muxers| && x < |f.muxers| && Below(f, a, x) && !Hides(f, a, prefix, x)
    requires prefix in f.muxers[a].groups && f.muxers[a].groups[prefix] < |f.groups| && '.' !in prefix
    ensures Query(f, x, FullName(prefix, action)) == Lookup(f.groups[f.muxers[a].groups[prefix]].actions, action)
    decreases f.height - f.rank[x]
  {
    SplitFull(prefix, action);
    assert LinkedAt(f, x);
    if x != a {
      UnhiddenAnswers(f, a, f.muxers[x].parent.value, prefix, action);
    }
  }

  lemma {:induction false} HiddenAlike(f: Forest, g: Forest, a: nat, prefix: string, x: nat)
    requires Linked(f) && Linked(g) && SameShape(f, g) && x < |f.muxers|
    requires forall y {:trigger f.muxers[y]} {:trigger g.muxers[y]} :: 0 <= y < |f.muxers| && y != a ==>
               (prefix in f.muxers[y].groups <==> prefix in g.muxers[y].groups)
    ensures Hides(f, a, prefix, x) <==> Hides(g, a, prefix, x)
    decreases f.height - f.rank[x]
  {
    assert LinkedAt(f, x) && f.muxers[x].parent == g.muxers[x].parent;
    if f.muxers[x].parent.Some? {
      HiddenAlike(f, g, a, prefix, f.muxers[x].parent.value);
    }
  }

  // The same muxers, parents and prefixes; the groups may hold anything, and anyone may watch.
  ghost predicate SamePrefixes(f: Forest, g: Forest) {
    SameShape(f, g) && forall x {:trigger f.muxers[x]} {:trigger g.muxers[x]} :: 0 <= x < |f.muxers| ==>
      g.muxers[x].groups.Keys == f.muxers[x].groups.Keys
  }

  /**
    Views stay right on every removal, whatever the groups hold and whoever watches, exactly when no prefix is used
    twice along a chain.
   */
  lemma RightExactlyIfDisjoint(f: Forest)
    requires Linked(f)
    ensures Disjoint(f) <==>
            forall g, m, prefix :: Linked(g) && SamePrefixes(f, g) && 0 <= m < |g.muxers| ==> RemovalSafe(g, m, prefix)
  {
    if Disjoint(f) {
      forall g, m, prefix | Linked(g) && SamePrefixes(f, g) && 0 <= m < |g.muxers|
        ensures RemovalSafe(g, m, prefix)
      {
        DisjointRemoval(f, g, m, prefix);
      }
    } else {
      DisjointUnlessShared(f);
      var a, m, prefix :| NearestShared(f, a, m, prefix);
      var g := SharedInUse(f, a, m, prefix);
      assert !RemovalSafe(g, m, prefix);
    }
  }

  lemma DisjointRemoval(f: Forest, g: Forest, m: nat, prefix: string)
    requires Linked(f) && Linked(g) && SamePrefixes(f, g) && m < |g.muxers| && Disjoint(f)
    ensures RemovalSafe(g, m, prefix)
  {
    forall a, x, p | 0 <= a < |g.muxers| && 0 <= x < |g.muxers| && a != x && Below(g, a, x) && p in g.muxers[a].groups
      ensures p !in g.muxers[x].groups
    {
      SameBelow(f, g, a, x);
      assert p in f.muxers[a].groups;
    }
    if prefix in g.muxers[m].groups {
      GroupThere(g, m, prefix);
      var group := g.muxers[m].groups[prefix];
      var h := g.(muxers := g.muxers[m := g.muxers[m].(groups := g.muxers[m].groups - {prefix})]);
      RemovedIsLess(h, g, m, prefix, group);
      OneGroupMoreShape(h, g, m, prefix, group);
      DisjointIsSafe(h, g, m, prefix, group);
    }
  }

  // With a shared prefix: the upper group has an action that the lower one's muxer has an observer for.
  lemma SharedInUse(f: Forest, a: nat, m: nat, prefix: string) returns (g: Forest)
    requires Linked(f) && NearestShared(f, a, m, prefix)
    ensures Linked(g) && SamePrefixes(f, g) && m < |g.muxers| && !RemovalSafe(g, m, prefix)
  {
    hide LinkedAt, Query, Below, Hides;
    g := InUse(f, a, m, prefix);
    InUseLinked(f, a, m, prefix);
    InUseAnswers(f, a, m, prefix);
    GroupThere(f, a, prefix);
    SplitFull(prefix, "x");
    var k := Key(0, m, FullName(prefix, "x"));
    assert 0 in g.muxers[m].watchers[k.name];
    assert Watches(g, k);
    assert !RemovalRight(g, m, prefix, k);
  }

  ghost function InUse(f: Forest, a: nat, m: nat, prefix: string): Forest
    requires a < |f.muxers| && m < |f.muxers|
  {
    var upper := f.muxers[a].(groups := f.muxers[a].groups[prefix := |f.groups|]);
    var lower := f.muxers[m].(watchers := map[FullName(prefix, "x") := [0]]);
    Forest(f.muxers[a := upper][m := if a == m then upper else lower],
           f.groups + [Group(map["x" := Info("", true, None)], [])], f.rank, f.height)
  }

  lemma InUseLinked(f: Forest, a: nat, m: nat, prefix: string)
    requires Linked(f) && NearestShared(f, a, m, prefix)
    ensures Linked(InUse(f, a, m, prefix)) && SamePrefixes(f, InUse(f, a, m, prefix))
  {
    hide Below, Hides, InUse;
    var g := InUse(f, a, m, prefix);
    GroupThere(f, a, prefix);
    InUseAt(f, a, m, prefix, m);
    forall x | 0 <= x < |f.muxers|
      ensures LinkedAt(g, x)
      ensures g.muxers[x].parent == f.muxers[x].parent && g.muxers[x].children == f.muxers[x].children
      ensures g.muxers[x].groups.Keys == f.muxers[x].groups.Keys
    {
      assert LinkedAt(f, x);
      InUseAt(f, a, m, prefix, x);
      forall c | c in g.muxers[x].children
        ensures c < |g.muxers| && g.muxers[c].parent == Some(x)
      {
        assert c in f.muxers[x].children;
        InUseAt(f, a, m, prefix, c);
      }
      forall p | p in g.muxers[x].groups
        ensures '.' !in p && g.muxers[x].groups[p] < |g.groups|
      {
        assert p in f.muxers[x].groups;
      }
    }
  }

  lemma InUseAt(f: Forest, a: nat, m: nat, prefix: string, x: nat)
    requires a < |f.muxers| && m < |f.muxers| && x < |f.muxers| && prefix in f.muxers[a].groups
    ensures
      var g := InUse(f, a, m, prefix);
      && |g.muxers| == |f.muxers| && |g.groups| == |f.groups| + 1 && g.rank == f.rank && g.height == f.height
      && g.muxers[x].parent == f.muxers[x].parent && g.muxers[x].children == f.muxers[x].children
      && g.muxers[x].groups.Keys == f.muxers[x].groups.Keys
      && forall p :: p in f.muxers[x].groups ==>
           g.muxers[x].groups[p] == f.muxers[x].groups[p] || g.muxers[x].groups[p] == |f.groups|
  {
  }

  // The lower muxer's group hides from it what the upper one answers.
  lemma InUseAnswers(f: Forest, a: nat, m: nat, prefix: string)
    requires Linked(f) && NearestShared(f, a, m, prefix) && Linked(InUse(f, a, m, prefix))
    ensures
      var g := InUse(f, a, m, prefix);
      Above(g, m, FullName(prefix, "x")).Some? && Below(g, m, m) && !Hides(g, m, prefix, m)
  {
    var g := InUse(f, a, m, prefix);
    var up := f.muxers[m].parent.value;
    GroupThere(f, a, prefix);
    assert Below(f, a, up);
    SameBelow(f, g, a, up);
    HiddenAlike(f, g, a, prefix, up);
    UnhiddenAnswers(g, a, up, prefix, "x");
  }

  // The group at a is replaced by one that has the action; the group at m has not, and m's observer is misled.
  lemma Misled(f: Forest, g: Forest, a: nat, m: nat, prefix: string, action: string, info: Info, k: Key,
               seen: Option<Info>)
    requires Linked(f) && Linked(g) && NearestShared(f, a, m, prefix) && SameShape(f, g)
    requires g.muxers == f.muxers[a := f.muxers[a].(groups := g.muxers[a].groups)]
    requires prefix in g.muxers[a].groups && g.muxers[a].groups[prefix] < |g.groups|
    requires g.groups[g.muxers[a].groups[prefix]].actions == map[action := info]
    requires f.muxers[m].groups[prefix] < |f.groups| && f.muxers[m].groups[prefix] < |g.groups| && '.' !in prefix
    requires action !in f.groups[f.muxers[m].groups[prefix]].actions
    requires action !in g.groups[f.muxers[m].groups[prefix]].actions
    requires f.muxers[a].groups[prefix] < |f.groups| && action !in f.groups[f.muxers[a].groups[prefix]].actions
    requires k.muxer == m && k.name == FullName(prefix, action) && Watches(f, k)
    requires seen == Query(f, m, k.name)
    ensures Watches(g, k) && Query(g, m, k.name) == None
    ensures Retold(g, a, prefix, map[action := info], true, k, AfterRemoval(f, a, prefix, k, seen)) == Some(info)
  {
    SplitFull(prefix, action);
    assert g.muxers[m] == f.muxers[m];
    SameBelow(f, g, a, m);
    var up := f.muxers[m].parent.value;
    assert Below(f, a, up);
    SameBelow(f, g, a, up);
    HiddenAlike(f, g, a, prefix, up);
    UnhiddenAnswers(g, a, up, prefix, action);
  }

  lemma AfterReplacement(f: Forest, g: Forest, a: nat, m: nat, prefix: string, group: nat, action: string, info: Info,
                         k: Key, views: Views, views': Views)
    requires Linked(f) && Linked(g) && NearestShared(f, a, m, prefix) && Agree(f, views)
    requires g.rank == f.rank && g.height == f.height && |g.groups| == |f.groups| && group < |f.groups|
    requires g.muxers == f.muxers[a := f.muxers[a].(groups := f.muxers[a].groups[prefix := group])]
    requires forall y :: 0 <= y < |f.groups| ==> g.groups[y].actions == f.groups[y].actions
    requires g.groups[group].actions == map[action := info]
    requires forall x :: x == a || x == m ==>
               f.muxers[x].groups[prefix] < |f.groups| && action !in f.groups[f.muxers[x].groups[prefix]].actions
    requires k.muxer == m && k.name == FullName(prefix, action) && Watches(f, k)
    requires View(views', k) == Retold(g, a, prefix, map[action := info], true, k,
                                       AfterRemoval(f, a, prefix, k, View(views, k)))
    ensures !Agree(g, views')
  {
    GroupThere(f, m, prefix);
    Misled(f, g, a, m, prefix, action, info, k, View(views, k));
  }

  lemma SharedBounds(f: Forest, a: nat, m: nat, prefix: string)
    requires Linked(f) && NearestShared(f, a, m, prefix)
    ensures a < |f.muxers| && m < |f.muxers| && prefix in f.muxers[a].groups && prefix in f.muxers[m].groups
    ensures f.muxers[a].groups[prefix] < |f.groups| && '.' !in prefix
  {
    GroupThere(f, a, prefix);
  }

  // For the example below: a muxer and its child, on which observer 0 watches p.x; both have a group under p, and only
  // the parent's has x.
  ghost function TwoGroups(info: Info): Forest {
    Forest([Muxer(map["p" := 0], None, [1], map[]), Muxer(map["p" := 1], Some(0), [], map["p.x" := [0]])],
           [Group(map["x" := info], [Binding(0, "p")]), Group(map[], [Binding(1, "p")])],
           [1, 0], 2)
  }

  lemma TwoGroupsLinked(info: Info)
    ensures
      var f := TwoGroups(info);
      && Linked(f) && ChildrenKnown(f, None) && Below(f, 0, 1) && Below(f, 0, 0)
      && f.muxers[0] == Muxer(map["p" := 0], None, [1], map[])
      && f.muxers[1] == Muxer(map["p" := 1], Some(0), [], map["p.x" := [0]])
  {
    var f := TwoGroups(info);
    assert f.muxers[1].parent == Some(0);
    assert LinkedAt(f, 0) && LinkedAt(f, 1);
    assert Linked(f);
    assert Below(f, 0, 0);
  }

  // An example of World.Mislead: the child's own group hides the parent's action, but the notification that it was
  // added goes through.
  lemma SharedPrefixMisleads(info: Info)
    ensures
      var f := TwoGroups(info);
      var k := Key(0, 1, "p.x");
      && Linked(f) && ChildrenKnown(f, None) && !Disjoint(f)
      && Watches(f, k) && Query(f, 1, "p.x") == None && Told(f, map[], 0, "p.x", Added, Some(info), k) == Some(info)
  {
    var f := TwoGroups(info);
    TwoGroupsLinked(info);
    SplitFull("p", "x");
    assert FullName("p", "x") == "p.x";
    hide Linked, ChildrenKnown, Below;
    assert Query(f, 0, "p.x") == Some(info);
    assert "p" in f.muxers[0].groups && "p" in f.muxers[1].groups;
    assert 0 in f.muxers[1].watchers["p.x"];
  }

  // The same two muxers before the child has its parent: making the link misleads its observers alike.
  lemma SharedPrefixUnsafe(info: Info)
    ensures
      var f := TwoGroups(info);
      var d := f.(muxers := [f.muxers[0].(children := []), f.muxers[1].(parent := None)]);
      Linked(d) && ChildrenKnown(d, None) && !ParentSafe(d, 1, Some(0))
  {
    var f := TwoGroups(info);
    var d := f.(muxers := [f.muxers[0].(children := []), f.muxers[1].(parent := None)]);
    assert LinkedAt(d, 0) && LinkedAt(d, 1);
    assert Linked(d);
    var k := Key(0, 1, "p.x");
    SplitFull("p", "x");
    assert FullName("p", "x") == "p.x";
    assert "p" in d.muxers[0].groups && "p" in d.muxers[1].groups;
    assert 0 in d.muxers[1].watchers["p.x"];
    assert Watches(d, k) && OwnName(d, 0, "p.x");
    assert Query(d, 0, "p.x") == Some(info) && Query(d, 1, "p.x") == None;
    assert Held(d, 1, 1, "p.x") && Listed(d, Some(0), "p.x") && FromAbove(d, 1, 0, 1, "p.x") == Some(info);
    assert !ParentRight(d, 1, Some(0), k);
  }

  function WithActions(gs: seq<Group>, group: nat, actions: map<string, Info>): seq<Group>
    requires group < |gs|
  {
    gs[group := gs[group].(actions := actions)]
  }

  class World {
    var muxers: seq<Muxer>
    var groups: seq<Group>
    var views: Views
    // The Action structs: where the one of a muxer's observed name is, and what the one at an address is for.
    var addresses: map<Spot, nat>
    var actionAt: map<nat, Spot>
    var weakRefs: multiset<WeakRef>
    ghost var rank: seq<nat>
    ghost var height: nat
    // Registrations minus unregistrations of observers that are alive.
    ghost var registered: multiset<Key>

    ghost function Now(): Forest
      reads this
    {
      Forest(muxers, groups, rank, height)
    }

    constructor ()
      ensures Valid() && Counted() && muxers == [] && groups == []
    {
      muxers, groups, views, rank, height := [], [], map[], [], 0;
      addresses, actionAt, weakRefs, registered := map[], map[], multiset{}, multiset{};
    }

    // gtk_action_muxer_new
    method NewMuxer() returns (m: nat)
      requires Sound() && Counted()
      modifies this`muxers, this`rank, this`height
      ensures Sound() && Counted() && m == |old(muxers)|
      ensures muxers == old(muxers) + [Muxer(map[], None, [], map[])]
      ensures old(Disjoint(Now())) ==> Disjoint(Now())
      ensures old(Agree(Now(), views)) ==> Agree(Now(), views)
    {
      hide Wired, Disjoint, Agree, ChildrenKnown, Linked, LinkedAt, Addressed, RefsMatch, TimesMatch;
      m := |muxers|;
      NewMuxerKeeps(Now(), views);
      NewMuxerCounts(muxers, addresses, actionAt, weakRefs, registered);
      muxers := muxers + [Muxer(map[], None, [], map[])];
      rank, height := rank + [0], height + 1;
    }

    // A new action group, in no muxer yet.
    method NewGroup(actions: map<string, Info>) returns (group: nat)
      requires Sound() && Counted()
      modifies this`groups
      ensures Sound() && Counted() && group == |old(groups)| && groups == old(groups) + [Group(actions, [])]
      ensures old(Disjoint(Now())) ==> Disjoint(Now())
      ensures old(Agree(Now(), views)) ==> Agree(Now(), views)
    {
      hide Wired, Disjoint, Agree, ChildrenKnown, Linked, LinkedAt, Addressed, RefsMatch, TimesMatch;
      group := |groups|;
      NewGroupKeeps(Now(), actions, views);
      groups := groups + [Group(actions, [])];
    }

    // gtk_action_muxer_query_action
    method QueryAction(m: nat, name: string) returns (r: Option<Info>)
      requires Linked(Now()) && m < |muxers|
      ensures r == Query(Now(), m, name)
      decreases height - rank[m]
    {
      var split := SplitName(name);
      if split.Some? && split.value.prefix in muxers[m].groups {
        return Lookup(groups[muxers[m].groups[split.value.prefix]].actions, split.value.action);
      }
      if muxers[m].parent.Some? {
        r := QueryAction(muxers[m].parent.value, name);
        return;
      }
      return None;
    }

    /**
      gtk_action_muxer_action_added, _action_removed, _action_enabled_changed and _action_state_changed, which differ in
      what they tell: first the muxer's own observers of the action, then, by its signal, every child.
     */
    method Notify(m: nat, name: string, change: Change, found: Option<Info>, ghost loose: Option<nat>)
      requires Linked(Now()) && m < |muxers| && ChildrenKnown(Now(), loose) && NotUnder(Now(), m, loose)
      modifies this`views
      ensures forall k :: View(views, k) == Told(Now(), old(views), m, name, change, found, k)
      decreases rank[m]
    {
      TellWatchers(m, name, change, found);
      ghost var f, before := Now(), old(views);
      var i := 0;
      while i < |muxers[m].children|
        invariant 0 <= i <= |muxers[m].children|
        invariant forall k :: View(views, k) == ToldUpTo(f, before, m, name, change, found, i, k)
      {
        ghost var middle := views;
        var again := QueryAction(m, name);
        assert muxers[m].children[i] in muxers[m].children;
        ChildNotUnder(f, m, i, loose);
        Notify(muxers[m].children[i], name, change, again, loose);
        forall k
          ensures View(views, k) == ToldUpTo(f, before, m, name, change, found, i + 1, k)
        {
          ToldNextChild(f, before, middle, views, m, name, change, found, i, k);
        }
        i := i + 1;
      }
      forall k
        ensures View(views, k) == Told(f, before, m, name, change, found, k)
      {
        ToldByAll(f, loose, before, m, name, change, found, k);
      }
    }

    method TellWatchers(m: nat, name: string, change: Change, found: Option<Info>)
      requires Linked(Now()) && m < |muxers|
      modifies this`views
      ensures forall k :: View(views, k) == ToldUpTo(Now(), old(views), m, name, change, found, 0, k)
    {
      var watchers := WatchersOf(muxers[m], name);
      var i := 0;
      while i < |watchers|
        invariant 0 <= i <= |watchers|
        invariant forall k :: View(views, k) ==
                    if k.muxer == m && k.name == name && k.observer in watchers[..i]
                    then Apply(change, found, View(old(views), k)) else View(old(views), k)
      {
        var key := Key(watchers[i], m, name);
        var seen := Apply(change, found, View(views, key));
        views := if seen.Some? then views[key := seen.value] else views - {key};
        assert watchers[..i + 1] == watchers[..i] + [watchers[i]];
        i := i + 1;
      }
      assert watchers[..i] == watchers;
    }

    // The connections are in order, whatever the prefixes and the views.
    ghost predicate Sound()
      reads this
    {
      Linked(Now()) && ChildrenKnown(Now(), None) && Wired(Now())
    }

    ghost predicate Valid()
      reads this
    {
      Sound() && Disjoint(Now()) && Agree(Now(), views)
    }

    // The signal of a group whose action has changed, to the handlers connected to it.
    method EmitGroupChange(group: nat, action: string, change: Change, ghost before: Forest)
      requires Linked(Now()) && ChildrenKnown(Now(), None) && Disjoint(Now())
      requires Linked(before) && Wired(before) && Disjoint(before) && Agree(before, views)
      requires group < |before.groups| && OneActionChanged(before, Now(), group, action)
      requires Apply(change, Lookup(groups[group].actions, action), Lookup(before.groups[group].actions, action))
               == Lookup(groups[group].actions, action)
      modifies this`views
      ensures Agree(Now(), views)
    {
      hide Wired, Disjoint, InStep, TellsRight, Agree, ChildrenKnown, NotUnder;
      var listeners := groups[group].listeners;
      GroupChangeBegins(before, Now(), group, action, views);
      assert listeners[0..] == listeners;
      var i := 0;
      while i < |listeners|
        invariant 0 <= i <= |listeners|
        invariant InStep(Now(), before, Now(), views, SpotsOf(listeners[i..], action))
      {
        ghost var views0 := views;
        ghost var found := Lookup(groups[group].actions, action);
        ghost var s := Spot(listeners[i].muxer, FullName(listeners[i].prefix, action));
        ListenerExists(before, group, i);
        Notify(listeners[i].muxer, FullName(listeners[i].prefix, action), change,
               Lookup(groups[group].actions, action), None);
        forall k | Watches(Now(), k)
          ensures TellsRight(Now(), before, Now(), s, change, found, SpotsOf(listeners[i..], action) - {s}, k)
        {
          GroupTells(before, Now(), group, action, i, change, k);
        }
        TellStep(Now(), before, Now(), views0, views, s, change, found, SpotsOf(listeners[i..], action));
        SpotsOfTail(listeners[i..], action);
        assert listeners[i..][1..] == listeners[i + 1..];
        RestDistinct(before, group, action, i);
        i := i + 1;
      }
      assert SpotsOf(listeners[i..], action) == {};
      NothingPending(Now(), before, Now(), views);
    }

    // A group gains an action and emits action-added.
    method AddAction(group: nat, action: string, info: Info)
      requires Valid() && group < |groups| && action !in groups[group].actions
      modifies this`groups, this`views
      ensures Valid() && groups == WithActions(old(groups), group, old(groups[group]).actions[action := info])
    {
      ghost var before := Now();
      groups := groups[group := groups[group].(actions := groups[group].actions[action := info])];
      OneActionKeeps(before, Now(), group, action);
      EmitGroupChange(group, action, Added, before);
    }

    // A group loses an action and emits action-removed.
    method RemoveAction(group: nat, action: string)
      requires Valid() && group < |groups| && action in groups[group].actions
      modifies this`groups, this`views
      ensures Valid() && groups == WithActions(old(groups), group, old(groups[group]).actions - {action})
    {
      ghost var before := Now();
      groups := groups[group := groups[group].(actions := groups[group].actions - {action})];
      OneActionKeeps(before, Now(), group, action);
      EmitGroupChange(group, action, Removed, before);
    }

    // A group enables or disables an action and emits action-enabled-changed.
    method SetActionEnabled(group: nat, action: string, enabled: bool)
      requires Valid() && group < |groups| && action in groups[group].actions
      modifies this`groups, this`views
      ensures Valid()
      ensures
        var was := old(groups[group]).actions;
        groups == WithActions(old(groups), group, was[action := was[action].(enabled := enabled)])
    {
      ghost var before := Now();
      var info := groups[group].actions[action].(enabled := enabled);
      groups := groups[group := groups[group].(actions := groups[group].actions[action := info])];
      OneActionKeeps(before, Now(), group, action);
      EmitGroupChange(group, action, EnabledChanged(enabled), before);
    }

    // A group changes an action's state and emits action-state-changed.
    method SetActionState(group: nat, action: string, value: Option<string>)
      requires Valid() && group < |groups| && action in groups[group].actions
      modifies this`groups, this`views
      ensures Valid()
      ensures
        var was := old(groups[group]).actions;
        groups == WithActions(old(groups), group, was[action := was[action].(value := value)])
    {
      ghost var before := Now();
      var info := groups[group].actions[action].(value := value);
      groups := groups[group := groups[group].(actions := groups[group].actions[action := info])];
      OneActionKeeps(before, Now(), group, action);
      EmitGroupChange(group, action, StateChanged(value), before);
    }

    // The loop over a group's actions in gtk_action_muxer_insert and gtk_action_muxer_remove.
    method TellActions(m: nat, prefix: string, group: nat, added: bool)
      requires Linked(Now()) && ChildrenKnown(Now(), None) && m < |muxers| && group < |groups| && '.' !in prefix
      modifies this`views
      ensures forall k ::
                View(views, k) == Retold(Now(), m, prefix, groups[group].actions, added, k, View(old(views), k))
    {
      hide ChildrenKnown, NotUnder, Linked, Told, Retold;
      var actions := groups[group].actions;
      ghost var told: map<string, Info> := map[];
      NothingRetold(Now(), views, m, prefix, added);
      var todo := actions.Keys;
      while todo != {}
        invariant todo <= actions.Keys && told == map a | a in actions && a !in todo :: actions[a]
        invariant forall k :: View(views, k) == Retold(Now(), m, prefix, told, added, k, View(old(views), k))
        decreases todo
      {
        ghost var views0 := views;
        var action :| action in todo;
        NoneLoose(Now(), m);
        Notify(m, FullName(prefix, action), if added then Added else Removed,
               if added then Some(actions[action]) else None, None);
        forall k
          ensures View(views, k)
                  == Retold(Now(), m, prefix, told[action := actions[action]], added, k, View(old(views), k))
        {
          RetoldMore(Now(), views0, m, prefix, told, action, actions[action], added, k, View(old(views), k));
        }
        told := told[action := actions[action]];
        todo := todo - {action};
      }
      assert told == actions;
    }

    /**
      gtk_action_muxer_remove, on any tree. Views that were right stay so exactly when, for each name watched at m and
      below, nothing answers in the group's place and nothing still answers that is told to be gone; with disjoint
      prefixes that is always so.
     */
    method RemoveGroup(m: nat, prefix: string)
      requires Sound() && m < |muxers|
      modifies this`muxers, this`groups, this`views
      ensures Sound() && |muxers| == |old(muxers)| && rank == old(rank) && height == old(height)
      ensures muxers == old(muxers)[m := old(muxers[m]).(groups := old(muxers[m]).groups - {prefix})]
      ensures |groups| == |old(groups)|
      ensures forall g :: 0 <= g < |groups| ==> groups[g].actions == old(groups)[g].actions
      ensures prefix !in old(muxers[m]).groups ==> groups == old(groups)
      ensures forall k :: View(views, k) == AfterRemoval(old(Now()), m, prefix, k, View(old(views), k))
      ensures old(Agree(Now(), views)) ==> (Agree(Now(), views) <==> old(RemovalSafe(Now(), m, prefix)))
      ensures old(Disjoint(Now())) ==> Disjoint(Now()) && old(RemovalSafe(Now(), m, prefix))
    {
      if prefix in muxers[m].groups {
        TakeOut(m, prefix);
      } else {
        assert muxers[m].groups - {prefix} == muxers[m].groups;
      }
    }

    // The part of gtk_action_muxer_remove for a group that is there.
    method TakeOut(m: nat, prefix: string)
      requires Sound() && m < |muxers| && prefix in muxers[m].groups
      modifies this`muxers, this`groups, this`views
      ensures Sound() && |muxers| == |old(muxers)| && rank == old(rank) && height == old(height)
      ensures muxers == old(muxers)[m := old(muxers[m]).(groups := old(muxers[m]).groups - {prefix})]
      ensures |groups| == |old(groups)|
      ensures forall g :: 0 <= g < |groups| ==> groups[g].actions == old(groups)[g].actions
      ensures forall k :: View(views, k) == AfterRemoval(old(Now()), m, prefix, k, View(old(views), k))
      ensures old(Agree(Now(), views)) ==> (Agree(Now(), views) <==> old(RemovalSafe(Now(), m, prefix)))
      ensures old(Disjoint(Now())) ==> Disjoint(Now()) && old(RemovalSafe(Now(), m, prefix))
    {
      hide Wired, Disjoint, Agree, ChildrenKnown, LinkedAt, RemovalSafe, Retold, AfterRemoval;
      ghost var withGroup, views0 := Now(), views;
      var group := muxers[m].groups[prefix];
      GroupThere(withGroup, m, prefix);
      muxers := muxers[m := muxers[m].(groups := muxers[m].groups - {prefix})];
      ghost var withoutGroup := Now();
      RemovedIsLess(withoutGroup, withGroup, m, prefix, group);
      OneGroupMoreShape(withoutGroup, withGroup, m, prefix, group);
      TellActions(m, prefix, group, false);
      forall k
        ensures View(views, k) == Retold(withGroup, m, prefix, groups[group].actions, false, k, View(views0, k))
      {
        RemovedAlike(withoutGroup, withGroup, m, prefix, group, groups[group].actions, k, View(views0, k));
      }
      var listeners := Without(groups[group].listeners, Binding(m, prefix));
      groups := groups[group := groups[group].(listeners := listeners)];
      RemovedKeeps(withoutGroup, withGroup, Now(), m, prefix, group);
      RemovedViews(withoutGroup, withGroup, Now(), m, prefix, group, views0, views);
    }

    /**
      gtk_action_muxer_insert, on any tree; a group already there under the prefix is removed first. Prefixes stay
      disjoint exactly if this one is free above and below m, and views stay right then.
     */
    method InsertGroup(m: nat, prefix: string, group: nat)
      requires Sound() && m < |muxers| && group < |groups| && '.' !in prefix
      modifies this`muxers, this`groups, this`views
      ensures Sound() && |muxers| == |old(muxers)| && rank == old(rank) && height == old(height)
      ensures muxers == old(muxers)[m := old(muxers[m]).(groups := old(muxers[m]).groups[prefix := group])]
      ensures |groups| == |old(groups)|
      ensures forall g :: 0 <= g < |groups| ==> groups[g].actions == old(groups)[g].actions
      ensures forall k ::
                View(views, k) == Retold(Now(), m, prefix, groups[group].actions, true, k,
                                         AfterRemoval(old(Now()), m, prefix, k, View(old(views), k)))
      ensures old(Agree(Now(), views)) && prefix !in old(muxers[m]).groups ==>
                (Agree(Now(), views) <==> old(InsertionSafe(Now(), m, prefix, group)))
      ensures old(Disjoint(Now())) ==> (Disjoint(Now()) <==> old(PrefixFree(Now(), m, prefix)))
      ensures old(Agree(Now(), views)) && old(Disjoint(Now())) && old(PrefixFree(Now(), m, prefix)) ==>
                Agree(Now(), views)
    {
      hide Wired, Disjoint, Agree, ChildrenKnown, PrefixFree, LinkedAt, RemovalSafe, InsertionSafe, Retold;
      ghost var start := Now();
      RemoveGroup(m, prefix);
      ghost var middle, views0 := Now(), views;
      FreeAlike(start, middle, m, prefix);
      if prefix !in start.muxers[m].groups {
        assert start.muxers[m].groups - {prefix} == start.muxers[m].groups;
        assert middle == start;
        NothingToRemove(start, m, prefix);
      }
      Bind(m, prefix, group);
      assert (start.muxers[m].groups - {prefix})[prefix := group] == start.muxers[m].groups[prefix := group];
      FreeAlike(start, Now(), m, prefix);
      if Disjoint(Now()) {
        FreeIfDisjoint(Now(), m, prefix);
      }
    }

    // Inserting under a prefix that m does not use. Views that were right stay so exactly as InsertionSafe says.
    method Bind(m: nat, prefix: string, group: nat)
      requires Sound() && m < |muxers| && group < |groups| && '.' !in prefix && prefix !in muxers[m].groups
      modifies this`muxers, this`groups, this`views
      ensures Sound() && |muxers| == |old(muxers)| && rank == old(rank) && height == old(height)
      ensures muxers == old(muxers)[m := old(muxers[m]).(groups := old(muxers[m]).groups[prefix := group])]
      ensures |groups| == |old(groups)|
      ensures forall g :: 0 <= g < |groups| ==> groups[g].actions == old(groups)[g].actions
      ensures forall k ::
                View(views, k) == Retold(Now(), m, prefix, groups[group].actions, true, k, View(old(views), k))
      ensures old(Agree(Now(), views)) ==> (Agree(Now(), views) <==> old(InsertionSafe(Now(), m, prefix, group)))
      ensures old(Disjoint(Now())) && old(PrefixFree(Now(), m, prefix)) ==>
                Disjoint(Now()) && old(InsertionSafe(Now(), m, prefix, group))
    {
      hide Wired, Disjoint, Agree, ChildrenKnown, PrefixFree, LinkedAt, InsertionSafe, Retold;
      ghost var withoutGroup, views0 := Now(), views;
      muxers := muxers[m := muxers[m].(groups := muxers[m].groups[prefix := group])];
      ghost var withGroup := Now();
      OneGroupMoreShape(withoutGroup, withGroup, m, prefix, group);
      TellActions(m, prefix, group, true);
      groups := groups[group := groups[group].(listeners := groups[group].listeners + [Binding(m, prefix)])];
      InsertedKeeps(withoutGroup, withGroup, Now(), m, prefix, group);
      InsertedViews(withoutGroup, withGroup, Now(), m, prefix, group, views0, views);
    }

    // gtk_action_muxer_append_group_actions, in whatever order the group lists its actions
    method AppendGroupActions(prefix: string, group: nat, names: seq<string>) returns (out: seq<string>)
      requires group < |groups| && '.' !in prefix
      ensures names <= out && Distinct(out[|names|..])
      ensures forall n :: n in out[|names|..] <==>
                SplitName(n).Some? && SplitName(n).value.prefix == prefix
                && SplitName(n).value.action in groups[group].actions
    {
      out := names;
      var actions := groups[group].actions.Keys;
      while actions != {}
        invariant actions <= groups[group].actions.Keys
        invariant names <= out && Distinct(out[|names|..])
        invariant forall n :: n in out[|names|..] <==>
                    SplitName(n).Some? && SplitName(n).value.prefix == prefix
                    && SplitName(n).value.action in groups[group].actions.Keys - actions
        decreases actions
      {
        var action :| action in actions;
        SplitFull(prefix, action);
        ghost var added := out[|names|..];
        out := out + [FullName(prefix, action)];
        assert out[|names|..] == added + [FullName(prefix, action)];
        actions := actions - {action};
        forall n | SplitName(n).Some? && SplitName(n).value == Split(prefix, action)
          ensures n == FullName(prefix, action)
        {
        }
      }
    }

    // g_hash_table_foreach over a muxer's groups
    method AppendOwn(m: nat, names: seq<string>) returns (out: seq<string>)
      requires Linked(Now()) && m < |muxers|
      ensures names <= out && Distinct(out[|names|..])
      ensures forall n :: n in out[|names|..] <==> OwnName(Now(), m, n)
    {
      assert LinkedAt(Now(), m);
      out := names;
      var prefixes := muxers[m].groups.Keys;
      while prefixes != {}
        invariant prefixes <= muxers[m].groups.Keys
        invariant names <= out && Distinct(out[|names|..])
        invariant forall n :: n in out[|names|..] <==>
                    OwnName(Now(), m, n) && SplitName(n).value.prefix !in prefixes
        decreases prefixes
      {
        var prefix :| prefix in prefixes;
        ghost var before := out;
        out := AppendGroupActions(prefix, muxers[m].groups[prefix], out);
        assert out[|names|..] == before[|names|..] + out[|before|..];
        DistinctAppend(before[|names|..], out[|before|..]);
        prefixes := prefixes - {prefix};
      }
    }

    /**
      gtk_action_muxer_list_actions: the names of the groups of m and above; with disjoint prefixes, exactly the names a
      query answers, without duplicates.
     */
    method ListActions(m: nat) returns (names: seq<string>)
      requires Linked(Now()) && m < |muxers|
      ensures forall n :: n in names <==> Listed(Now(), Some(m), n)
      ensures Disjoint(Now()) ==> Distinct(names) && forall n :: n in names <==> Query(Now(), m, n).Some?
    {
      hide LinkedAt, Disjoint, OwnName, Query, ListedBelow, Distinct;
      names := [];
      DistinctEmpty(names);
      var at: Option<nat> := Some(m);
      while at.Some?
        invariant at.Some? ==> at.value < |muxers|
        invariant forall n :: Listed(Now(), Some(m), n) <==> n in names || Listed(Now(), at, n)
        invariant Disjoint(Now()) ==> Distinct(names) && forall n :: n in names ==> ListedBelow(Now(), at, n)
        decreases if at.Some? then height - rank[at.value] + 1 else 0
      {
        ghost var before := names;
        ParentRank(Now(), at.value);
        names := AppendOwn(at.value, names);
        assert names == before + names[|before|..];
        if Disjoint(Now()) {
          forall n
            ensures ListedBelow(Now(), at, n) ==> !OwnName(Now(), at.value, n)
            ensures OwnName(Now(), at.value, n) || ListedBelow(Now(), at, n) ==>
                    ListedBelow(Now(), muxers[at.value].parent, n)
          {
            ListStep(Now(), at.value, n);
          }
          DistinctAppend(before, names[|before|..]);
        }
        at := muxers[at.value].parent;
      }
      forall n
        ensures Disjoint(Now()) ==> (Listed(Now(), Some(m), n) <==> Query(Now(), m, n).Some?)
      {
        ListedAnswers(Now(), m, n);
      }
    }

    // The loops over a parent's actions in gtk_action_muxer_set_parent; m has the parent p throughout.
    method TellParentActions(m: nat, p: nat, attach: bool, ghost loose: Option<nat>)
      requires Linked(Now()) && ChildrenKnown(Now(), loose) && m < |muxers| && NotUnder(Now(), m, loose)
      requires p < |muxers| && muxers[m].parent == Some(p)
      modifies this`views
      ensures forall k ::
                View(views, k) == ToldUp(Now(), m, attach, Listed(Now(), Some(p), k.name), k, View(old(views), k))
    {
      hide ChildrenKnown, NotUnder, Linked, Told, ToldUp;
      ghost var a := Now();
      NothingToldUp(a, m, attach, views);
      var names := ListActions(p);
      var i := 0;
      while i < |names|
        invariant 0 <= i <= |names|
        invariant forall k :: View(views, k) == ToldUp(a, m, attach, k.name in names[..i], k, View(old(views), k))
      {
        ghost var views0 := views;
        var name := names[i];
        var found: Option<Info> := None;
        if attach {
          found := QueryAction(p, name);
        }
        Notify(m, name, if attach then Added else Removed, found, loose);
        assert names[..i + 1] == names[..i] + [name];
        forall k
          ensures View(views, k) == ToldUp(a, m, attach, k.name in names[..i + 1], k, View(old(views), k))
        {
          ToldUpMore(a, views0, m, p, attach, name, k.name in names[..i], k, View(old(views), k));
        }
        i := i + 1;
      }
      assert names[..i] == names;
    }

    // The old parent's actions are told as removed, and then the link is cut.
    method Detach(m: nat, p: nat)
      requires Sound() && m < |muxers| && muxers[m].parent == Some(p)
      modifies this`muxers, this`views
      ensures Sound() && |muxers| == |old(muxers)| && Cut(Now(), old(Now()), m, p)
      ensures old(Disjoint(Now())) ==> Disjoint(Now())
      ensures p < |old(muxers)| && forall k ::
                View(views, k)
                == ToldUp(old(Now()), m, false, Listed(old(Now()), Some(p), k.name), k, View(old(views), k))
    {
      hide ToldUp, Wired, ChildrenKnown, Disjoint, Listed;
      ghost var a := Now();
      BelowRankSelf(a, m, p);
      ghost var d := DetachedFrom(a, m, p);
      assert p != m by { assert Below(a, m, m); }
      DetachKeeps(a, m, p);
      TellParentActions(m, p, false, None);
      muxers := muxers[p := muxers[p].(children := Without(muxers[p].children, m))];
      muxers := muxers[m := muxers[m].(parent := None)];
      assert Now() == d;
    }

    // The link is made, the new parent's actions are told as added, and last its signals are connected.
    method Attach(m: nat, p: nat)
      requires Sound() && m < |muxers| && p < |muxers| && muxers[m].parent == None && !Below(Now(), m, p)
      modifies this`muxers, this`views, this`rank, this`height
      ensures Sound() && |muxers| == |old(muxers)| && Cut(old(Now()), Now(), m, p)
      ensures old(Disjoint(Now())) ==> (Disjoint(Now()) <==> old(Apart(Now(), m, p)))
      ensures forall k :: View(views, k) == ToldFrom(old(Now()), m, p, k, View(old(views), k))
    {
      hide Wired, Disjoint, ChildrenKnown, Apart, ToldUp, ToldFrom, Listed;
      ghost var d, views0 := Now(), views;
      PutBelowLinked(d, m, p);
      assert p != m && m !in muxers[p].children by { assert Below(d, m, m) && LinkedAt(d, p); }
      muxers := muxers[m := muxers[m].(parent := Some(p))];
      rank, height := RankBelow(d, m), 2 * height;
      ghost var a := Now();
      assert a == PutBelow(d, m, p);
      WiredSame(d, a);
      assert NotUnder(a, m, Some(m));
      TellParentActions(m, p, true, Some(m));
      forall k
        ensures View(views, k) == ToldFrom(d, m, p, k, View(views0, k))
      {
        AttachedTold(d, a, m, p, k, View(views0, k));
      }
      muxers := muxers[p := muxers[p].(children := muxers[p].children + [m])];
      ConnectKeeps(a, Now(), m, p);
      if Disjoint(d) {
        PutBelowDisjoint(d, Now(), m, p);
      }
    }

    /**
      gtk_action_muxer_set_parent, on any tree: what every observer knows afterwards; views that were right stay so
      exactly if the change is safe, and with disjoint prefixes, before and after, it is.
     */
    method SetParent(m: nat, parent: Option<nat>)
      requires Sound() && m < |muxers|
      requires parent.Some? ==> parent.value < |muxers| && !Below(Now(), m, parent.value)
      modifies this`muxers, this`views, this`rank, this`height
      ensures Sound() && |muxers| == |old(muxers)| && muxers[m].parent == parent
      ensures forall x :: 0 <= x < |muxers| && x != m ==> muxers[x].parent == old(muxers[x].parent)
      ensures forall x :: 0 <= x < |muxers| ==>
                muxers[x].groups == old(muxers[x].groups) && muxers[x].watchers == old(muxers[x].watchers)
      ensures forall k :: View(views, k) == AfterParent(old(Now()), m, parent, k, View(old(views), k))
      ensures old(Agree(Now(), views)) ==> (Agree(Now(), views) <==> old(ParentSafe(Now(), m, parent)))
      ensures old(Disjoint(Now()) && (parent.Some? ==> Apart(Now(), m, parent.value))) ==>
                Disjoint(Now()) && old(ParentSafe(Now(), m, parent))
    {
      hide Wired, Disjoint, Agree, ChildrenKnown, Apart, AfterParent, ParentSafe, ToldUp, ToldFrom, Below, Linked;
      ghost var f, views0 := Now(), views;
      LinkThere(f, m);
      if Disjoint(f) && (parent.Some? ==> Apart(f, m, parent.value)) {
        DisjointParentSafe(f, m, parent);
      }
      if muxers[m].parent == parent {
        ParentKept(f, m, views);
        return;
      }
      if muxers[m].parent.Some? {
        Detach(m, muxers[m].parent.value);
      }
      ghost var d, views1 := Now(), views;
      assert Unlinked(d, f, m);
      if parent.Some? {
        UnlinkedApart(d, f, m, parent.value);
        Attach(m, parent.value);
      }
      forall k
        ensures View(views, k) == AfterParent(f, m, parent, k, View(views0, k))
      {
        ParentTold(f, d, m, parent, k, View(views0, k));
      }
      ParentViews(f, d, Now(), m, parent, views0, views);
    }

    /**
      Every observer is in an action's list as often as it was registered net of unregistrations, and has as many live
      weak references for that action; the action's entry exists exactly while the list is not empty.
     */
    ghost predicate Counted()
      reads this
    {
      && Addressed(muxers, addresses, actionAt) && RefsMatch(muxers, addresses, actionAt, weakRefs)
      && TimesMatch(muxers, registered)
    }

    // gtk_action_muxer_register_observer, after which the observer queries for its first view. `address` is where a
    // new Action struct would be put.
    method RegisterObserver(m: nat, name: string, observer: nat, address: nat)
      requires Sound() && Counted() && m < |muxers| && address !in actionAt
      modifies this`muxers, this`views, this`addresses, this`actionAt, this`weakRefs, this`registered
      ensures Sound() && Counted() && registered == old(registered) + multiset{Key(observer, m, name)}
      ensures muxers == Prepend(old(muxers), m, name, observer)
      ensures old(Disjoint(Now())) ==> Disjoint(Now())
      ensures old(Agree(Now(), views)) ==> Agree(Now(), views)
    {
      hide Linked, Wired, Disjoint, Agree, ChildrenKnown, Addressed, RefsMatch, TimesMatch, Query, Prepend;
      ghost var f, views0 := Now(), views;
      AddWatcher(m, name, observer, address);
      PrependOnlyWatchers(f, m, name, observer);
      ghost var g := Now();
      LinkedWatchers(f, g);
      var first := QueryAction(m, name);
      var key := Key(observer, m, name);
      views := if first.Some? then views[key := first.value] else views - {key};
      FirstView(f, g, views0, views, key);
    }

    method AddWatcher(m: nat, name: string, observer: nat, address: nat)
      requires Counted() && m < |muxers| && address !in actionAt
      modifies this`muxers, this`addresses, this`actionAt, this`weakRefs, this`registered
      ensures Counted() && registered == old(registered) + multiset{Key(observer, m, name)}
      ensures muxers == Prepend(old(muxers), m, name, observer)
    {
      hide Addressed, RefsMatch, TimesMatch, Prepend;
      PrependAddressed(muxers, m, name, observer, addresses, actionAt, address);
      AddressKnown(muxers, addresses, actionAt, m, name);
      if Spot(m, name) !in addresses {
        addresses := addresses[Spot(m, name) := address];
        actionAt := actionAt[address := Spot(m, name)];
      }
      var a := addresses[Spot(m, name)];
      PrependRefs(muxers, m, name, observer, old(addresses), old(actionAt), a, weakRefs);
      PrependTimes(muxers, m, name, observer, registered);
      muxers := Prepend(muxers, m, name, observer);
      weakRefs := weakRefs + multiset{WeakRef(observer, a)};
      registered := registered + multiset{Key(observer, m, name)};
    }

    // gtk_action_muxer_unregister_observer, for a name that some observer is registered for.
    method UnregisterObserver(m: nat, name: string, observer: nat)
      requires Valid() && Counted() && m < |muxers| && name in muxers[m].watchers
      modifies this`muxers, this`addresses, this`actionAt, this`weakRefs, this`registered
      ensures Valid() && Counted() && registered == old(registered) - multiset{Key(observer, m, name)}
      ensures muxers == if observer in old(muxers[m]).watchers[name] then Drop(old(muxers), m, name, observer)
                        else old(muxers)
    {
      hide Linked, Wired, Disjoint, Agree, ChildrenKnown, TimesMatch, Drop, RefOf;
      var a := addresses[Spot(m, name)];
      var ref := WeakRef(observer, a);
      OneRefLess(muxers, addresses, actionAt, weakRefs, observer, m, name);
      weakRefs := weakRefs - multiset{ref};
      UnregisterInternal(a, observer, multiset{});
    }

    // gtk_action_muxer_unregister_internal, with the weak reference gone and others `due` to be notified of.
    method UnregisterInternal(a: nat, observer: nat, ghost due: multiset<WeakRef>)
      requires Valid() && a in actionAt && Addressed(muxers, addresses, actionAt) && TimesMatch(muxers, registered)
      requires RefsMatch(muxers, addresses, actionAt, weakRefs + due + RefOf(muxers, actionAt[a], a, observer))
      modifies this`muxers, this`addresses, this`actionAt, this`registered
      ensures Valid() && Addressed(muxers, addresses, actionAt) && TimesMatch(muxers, registered)
      ensures RefsMatch(muxers, addresses, actionAt, weakRefs + due)
      ensures
        var s := old(actionAt[a]);
        && registered == old(registered) - multiset{Key(observer, s.muxer, s.name)}
        && s.muxer < |old(muxers)| && s.name in old(muxers)[s.muxer].watchers
        && muxers == if observer in old(muxers)[s.muxer].watchers[s.name]
                     then Drop(old(muxers), s.muxer, s.name, observer) else old(muxers)
    {
      hide Linked, Wired, Disjoint, Agree, ChildrenKnown, Addressed, RefsMatch, TimesMatch, Drop, RefOf;
      var s := actionAt[a];
      AddressLive(muxers, addresses, actionAt, a);
      RefOfPresent(muxers, s, a, observer);
      DropTimes(muxers, s.muxer, s.name, observer, registered);
      registered := registered - multiset{Key(observer, s.muxer, s.name)};
      if observer !in muxers[s.muxer].watchers[s.name] {
        assert weakRefs + due + multiset{} == weakRefs + due;
        return;
      }
      ghost var f := Now();
      DropAddressed(muxers, s.muxer, s.name, observer, addresses, actionAt);
      DropRefs(muxers, s.muxer, s.name, observer, addresses, actionAt, weakRefs + due);
      muxers := Drop(muxers, s.muxer, s.name, observer);
      if s.name !in muxers[s.muxer].watchers {
        addresses := addresses - {s};
        actionAt := actionAt - {a};
      }
      FewerWatchers(f, Now(), s.muxer, s.name, observer, views);
    }

    // An observer is finalised: all its weak references are cleared, then each is notified, in some order.
    method FinalizeObserver(observer: nat)
      requires Valid() && Counted()
      modifies this`muxers, this`addresses, this`actionAt, this`weakRefs, this`registered
      ensures Valid() && Counted()
      ensures forall k :: registered[k] == if k.observer == observer then 0 else old(registered)[k]
    {
      hide Linked, Wired, Disjoint, Agree, ChildrenKnown, Addressed, RefsMatch, TimesMatch, Drop, RefOf, Times;
      var due := ClearWeakRefs(observer);
      while due != multiset{}
        invariant Valid() && Addressed(muxers, addresses, actionAt) && TimesMatch(muxers, registered)
        invariant RefsMatch(muxers, addresses, actionAt, weakRefs + due)
        invariant forall r :: r in due ==> r.observer == observer
        invariant forall r :: r in weakRefs ==> r.observer != observer
        invariant forall k: Key :: k.observer != observer ==> registered[k] == old(registered)[k]
        decreases |due|
      {
        var r :| r in due;
        var rest := due - multiset{r};
        DueRef(muxers, addresses, actionAt, weakRefs, due, r);
        UnregisterInternal(r.action, observer, rest);
        due := rest;
      }
      assert weakRefs + due == weakRefs;
      forall k: Key | k.observer == observer
        ensures registered[k] == 0
      {
        NoRefsNoTimes(muxers, addresses, actionAt, weakRefs, registered, k);
      }
    }

    method ClearWeakRefs(observer: nat) returns (due: multiset<WeakRef>)
      modifies this`weakRefs
      ensures weakRefs + due == old(weakRefs)
      ensures forall r :: r in due ==> r.observer == observer
      ensures forall r :: r in weakRefs ==> r.observer != observer
    {
      due := multiset{};
      while exists r :: r in weakRefs && r.observer == observer
        invariant weakRefs + due == old(weakRefs) && forall r :: r in due ==> r.observer == observer
        decreases |weakRefs|
      {
        var r :| r in weakRefs && r.observer == observer;
        weakRefs := weakRefs - multiset{r};
        due := due + multiset{r};
      }
    }

    // What the callers of each operation must see to; the names a muxer may not share are the prefixes along a chain.
    ghost predicate Allowed(call: Call)
      requires Linked(Now())
      reads this
    {
      match call
      case NewMuxer => true
      case NewGroup(_) => true
      case Insert(m, prefix, group) =>
        m < |muxers| && group < |groups| && '.' !in prefix && PrefixFree(Now(), m, prefix)
      case Remove(m, _) => m < |muxers|
      case SetParent(m, parent) =>
        m < |muxers|
        && (parent.Some? ==>
              parent.value < |muxers| && !Below(Now(), m, parent.value) && Apart(Now(), m, parent.value))
      case ActionAdded(group, action, _) => group < |groups| && action !in groups[group].actions
      case ActionRemoved(group, action) => group < |groups| && action in groups[group].actions
      case ActionEnabled(group, action, _) => group < |groups| && action in groups[group].actions
      case ActionState(group, action, _) => group < |groups| && action in groups[group].actions
      case Register(m, _, _, address) => m < |muxers| && address !in actionAt
      case Unregister(m, name, _) => m < |muxers| && name in muxers[m].watchers
      case Finalize(_) => true
    }

    // Every call leaves every observer's view what a query answers, and the registrations counted.
    method Step(call: Call)
      requires Valid() && Counted() && Allowed(call)
      modifies this
      ensures Valid() && Counted()
    {
      hide Linked, Wired, Disjoint, Agree, ChildrenKnown, Addressed, RefsMatch, TimesMatch, PrefixFree, Apart;
      match call
      case NewMuxer => var _ := NewMuxer();
      case NewGroup(actions) => var _ := NewGroup(actions);
      case Register(m, name, observer, address) => RegisterObserver(m, name, observer, address);
      case Unregister(m, name, observer) => UnregisterObserver(m, name, observer);
      case Finalize(observer) => FinalizeObserver(observer);
      case _ =>
        ghost var f := Now();
        Regroup(call);
        SameCounts(f, Now(), addresses, actionAt, weakRefs, registered);
    }

    /**
      From any state in which a prefix is used twice along a chain, however right the views are: three calls that leave
      every muxer's prefixes as they are, after which an observer takes an action to be there that no query finds.
     */
    method Mislead(a: nat, m: nat, prefix: string, action: string, info: Info, observer: nat, address: nat)
      requires Sound() && Counted() && Agree(Now(), views) && NearestShared(Now(), a, m, prefix)
      requires address !in actionAt
      requires forall x :: x == a || x == m ==>
                 muxers[x].groups[prefix] < |groups| && action !in groups[muxers[x].groups[prefix]].actions
      modifies this
      ensures Sound() && !Agree(Now(), views)
      ensures |muxers| == |old(muxers)| && forall x {:trigger muxers[x]} :: 0 <= x < |muxers| ==>
                muxers[x].parent == old(muxers)[x].parent && muxers[x].groups.Keys == old(muxers)[x].groups.Keys
    {
      hide Linked, Wired, Disjoint, Agree, ChildrenKnown, NearestShared, Addressed, RefsMatch, TimesMatch, Retold,
           AfterRemoval, Query, Below, Watches, Prepend, View, PrefixFree, RemovalSafe, InsertionSafe;
      ghost var start := Now();
      SharedBounds(start, a, m, prefix);
      var group := NewGroup(map[action := info]);
      RegisterObserver(m, FullName(prefix, action), observer, address);
      ghost var f, views0, k := Now(), views, Key(observer, m, FullName(prefix, action));
      NewWatcherSees(start, f, a, m, prefix, observer, k.name);
      InsertGroup(a, prefix, group);
      AfterReplacement(f, Now(), a, m, prefix, group, action, info, k, views0, views);
    }

    // The calls that leave the observers alone.
    method Regroup(call: Call)
      requires Valid() && Allowed(call)
      modifies this`muxers, this`groups, this`views, this`rank, this`height
      ensures Valid() && SameWatchers(old(Now()), Now())
    {
      hide Linked, Wired, Disjoint, Agree, ChildrenKnown, PrefixFree, Apart;
      match call
      case Insert(m, prefix, group) => InsertGroup(m, prefix, group);
      case Remove(m, prefix) => RemoveGroup(m, prefix);
      case SetParent(m, parent) => SetParent(m, parent);
      case ActionAdded(group, action, info) => AddAction(group, action, info);
      case ActionRemoved(group, action) => RemoveAction(group, action);
      case ActionEnabled(group, action, enabled) => SetActionEnabled(group, action, enabled);
      case ActionState(group, action, value) => SetActionState(group, action, value);
      case _ =>
    }
  }

  datatype Call =
    | NewMuxer
    | NewGroup(actions: map<string, Info>)
    | Insert(m: nat, prefix: string, group: nat)
    | Remove(m: nat, prefix: string)
    | SetParent(m: nat, parent: Option<nat>)
    | ActionAdded(group: nat, action: string, info: Info)
    | ActionRemoved(group: nat, action: string)
    | ActionEnabled(group: nat, action: string, enabled: bool)
    | ActionState(group: nat, action: string, value: Option<string>)
    | Register(m: nat, name: string, observer: nat, address: nat)
    | Unregister(m: nat, name: string, observer: nat)
    | Finalize(observer: nat)

  lemma SameCounts(f: Forest, g: Forest, addresses: map<Spot, nat>, actionAt: map<nat, Spot>, refs: multiset<WeakRef>,
                   registered: multiset<Key>)
    requires SameWatchers(f, g) && Addressed(f.muxers, addresses, actionAt)
    requires RefsMatch(f.muxers, addresses, actionAt, refs) && TimesMatch(f.muxers, registered)
    ensures Addressed(g.muxers, addresses, actionAt) && RefsMatch(g.muxers, addresses, actionAt, refs)
    ensures TimesMatch(g.muxers, registered)
  {
    forall k: Key
      ensures Times(g.muxers, k) == Times(f.muxers, k)
    {
    }
    assert forall x {:trigger g.muxers[x]} :: 0 <= x < |g.muxers| ==> f.muxers[x].watchers == g.muxers[x].watchers;
    assert forall k :: registered[k] == Times(f.muxers, k);
  }

  lemma NewMuxerCounts(ms: seq<Muxer>, addresses: map<Spot, nat>, actionAt: map<nat, Spot>, refs: multiset<WeakRef>,
                       registered: multiset<Key>)
    requires Addressed(ms, addresses, actionAt) && RefsMatch(ms, addresses, actionAt, refs)
    requires TimesMatch(ms, registered)
    ensures
      var ms' := ms + [Muxer(map[], None, [], map[])];
      Addressed(ms', addresses, actionAt) && RefsMatch(ms', addresses, actionAt, refs) && TimesMatch(ms', registered)
  {
    var ms' := ms + [Muxer(map[], None, [], map[])];
    forall k: Key
      ensures Times(ms', k) == Times(ms, k)
    {
    }
    assert forall k :: registered[k] == Times(ms, k);
  }

  lemma NewMuxerKeeps(f: Forest, views: Views)
    requires Linked(f) && ChildrenKnown(f, None) && Wired(f)
    ensures
      var g := Forest(f.muxers + [Muxer(map[], None, [], map[])], f.groups, f.rank + [0], f.height + 1);
      && Linked(g) && ChildrenKnown(g, None) && Wired(g)
      && (Disjoint(f) ==> Disjoint(g)) && (Agree(f, views) ==> Agree(g, views))
  {
    var g := Forest(f.muxers + [Muxer(map[], None, [], map[])], f.groups, f.rank + [0], f.height + 1);
    Extended(f, g, views);
  }

  lemma NewGroupKeeps(f: Forest, actions: map<string, Info>, views: Views)
    requires Linked(f) && ChildrenKnown(f, None) && Wired(f)
    ensures
      var g := f.(groups := f.groups + [Group(actions, [])]);
      && Linked(g) && ChildrenKnown(g, None) && Wired(g)
      && (Disjoint(f) ==> Disjoint(g)) && (Agree(f, views) ==> Agree(g, views))
  {
    var g := f.(groups := f.groups + [Group(actions, [])]);
    Extended(f, g, views);
  }

  // g has further, unconnected, muxers and groups.
  ghost predicate Extends(f: Forest, g: Forest) {
    && f.muxers <= g.muxers && f.groups <= g.groups && f.rank <= g.rank && f.height <= g.height
    && |g.rank| == |g.muxers|
    && (forall x {:trigger g.muxers[x]} :: |f.muxers| <= x < |g.muxers| ==>
          g.muxers[x] == Muxer(map[], None, [], map[]) && g.rank[x] < g.height)
    && forall y {:trigger g.groups[y]} :: |f.groups| <= y < |g.groups| ==> g.groups[y].listeners == []
  }

  lemma Extended(f: Forest, g: Forest, views: Views)
    requires Linked(f) && ChildrenKnown(f, None) && Wired(f) && Extends(f, g)
    ensures Linked(g) && ChildrenKnown(g, None) && Wired(g)
    ensures Disjoint(f) ==> Disjoint(g)
    ensures Agree(f, views) ==> Agree(g, views)
  {
    hide Wired, ChildrenKnown, Agree, Disjoint, LinkedAt, Query, Below;
    ExtendedLinks(f, g);
    ExtendedWires(f, g);
    if Disjoint(f) {
      ExtendedDisjoint(f, g);
    }
    if Agree(f, views) {
      ExtendedAgree(f, g, views);
    }
  }

  lemma ExtendedLinks(f: Forest, g: Forest)
    requires Linked(f) && ChildrenKnown(f, None) && Extends(f, g)
    ensures Linked(g) && ChildrenKnown(g, None)
  {
    forall x | 0 <= x < |g.muxers|
      ensures LinkedAt(g, x)
    {
      assert x < |f.muxers| ==> LinkedAt(f, x) && g.muxers[x] == f.muxers[x];
    }
    forall x | 0 <= x < |g.muxers| && g.muxers[x].parent.Some?
      ensures x in g.muxers[g.muxers[x].parent.value].children
    {
      assert LinkedAt(f, x);
      assert g.muxers[g.muxers[x].parent.value] == f.muxers[f.muxers[x].parent.value];
    }
  }

  lemma ExtendedWires(f: Forest, g: Forest)
    requires Linked(f) && Wired(f) && Extends(f, g)
    ensures Wired(g)
  {
    forall m, p | 0 <= m < |g.muxers| && p in g.muxers[m].groups
      ensures g.muxers[m].groups[p] < |g.groups| && Binding(m, p) in g.groups[g.muxers[m].groups[p]].listeners
    {
      assert p in f.muxers[m].groups;
    }
    forall y, b | 0 <= y < |g.groups| && b in g.groups[y].listeners
      ensures b.muxer < |g.muxers| && b.prefix in g.muxers[b.muxer].groups && g.muxers[b.muxer].groups[b.prefix] == y
    {
      assert b in f.groups[y].listeners;
    }
    assert forall y :: 0 <= y < |f.groups| ==> g.groups[y] == f.groups[y];
  }

  lemma {:induction false} ExtendedAnswers(f: Forest, g: Forest, b: nat, m: nat, name: string)
    requires Linked(f) && Linked(g) && Extends(f, g) && m < |f.muxers|
    ensures Query(g, m, name) == Query(f, m, name) && (Below(g, b, m) <==> Below(f, b, m))
    decreases f.height - f.rank[m]
  {
    assert LinkedAt(f, m) && g.muxers[m] == f.muxers[m];
    if f.muxers[m].parent.Some? {
      ExtendedAnswers(f, g, b, f.muxers[m].parent.value, name);
    }
  }

  lemma ExtendedDisjoint(f: Forest, g: Forest)
    requires Linked(f) && Linked(g) && Disjoint(f) && Extends(f, g)
    ensures Disjoint(g)
  {
    forall b, x, q | 0 <= b < |g.muxers| && 0 <= x < |g.muxers| && b != x && Below(g, b, x) && q in g.muxers[b].groups
      ensures q !in g.muxers[x].groups
    {
      if x < |f.muxers| {
        ExtendedAnswers(f, g, b, x, "");
        assert q in f.muxers[b].groups;
      }
    }
  }

  lemma ExtendedAgree(f: Forest, g: Forest, views: Views)
    requires Linked(f) && Linked(g) && Agree(f, views) && Extends(f, g)
    ensures Agree(g, views)
  {
    forall k | Watches(g, k)
      ensures View(views, k) == Query(g, k.muxer, k.name)
    {
      assert Watches(f, k);
      ExtendedAnswers(f, g, 0, k.muxer, k.name);
    }
  }

  // The weak reference that goes with the observer's first occurrence in the list.
  ghost function RefOf(ms: seq<Muxer>, s: Spot, a: nat, observer: nat): multiset<WeakRef> {
    if Times(ms, Key(observer, s.muxer, s.name)) > 0 then multiset{WeakRef(observer, a)} else multiset{}
  }

  lemma RefOfPresent(ms: seq<Muxer>, s: Spot, a: nat, observer: nat)
    requires s.muxer < |ms| && s.name in ms[s.muxer].watchers
    ensures RefOf(ms, s, a, observer)
            == if observer in ms[s.muxer].watchers[s.name] then multiset{WeakRef(observer, a)} else multiset{}
  {
    assert WatchersOf(ms[s.muxer], s.name) == ms[s.muxer].watchers[s.name];
  }

  lemma AddressLive(ms: seq<Muxer>, addresses: map<Spot, nat>, actionAt: map<nat, Spot>, a: nat)
    requires Addressed(ms, addresses, actionAt) && a in actionAt
    ensures actionAt[a] in addresses && addresses[actionAt[a]] == a
    ensures actionAt[a].muxer < |ms| && actionAt[a].name in ms[actionAt[a].muxer].watchers
  {
  }

  lemma AddressKnown(ms: seq<Muxer>, addresses: map<Spot, nat>, actionAt: map<nat, Spot>, m: nat, name: string)
    requires Addressed(ms, addresses, actionAt)
    ensures Spot(m, name) in addresses ==>
              addresses[Spot(m, name) := addresses[Spot(m, name)]] == addresses
              && actionAt[addresses[Spot(m, name)] := Spot(m, name)] == actionAt
  {
  }

  lemma OneRefLess(ms: seq<Muxer>, addresses: map<Spot, nat>, actionAt: map<nat, Spot>, refs: multiset<WeakRef>,
                   observer: nat, m: nat, name: string)
    requires Addressed(ms, addresses, actionAt) && RefsMatch(ms, addresses, actionAt, refs)
    requires m < |ms| && name in ms[m].watchers
    ensures Spot(m, name) in addresses && addresses[Spot(m, name)] in actionAt
    ensures
      var a := addresses[Spot(m, name)];
      && actionAt[a] == Spot(m, name)
      && refs - multiset{WeakRef(observer, a)} + multiset{} + RefOf(ms, actionAt[a], a, observer) == refs
  {
    var a := addresses[Spot(m, name)];
    assert refs[WeakRef(observer, a)] == Times(ms, Key(observer, m, name));
  }

  // A reference still to be notified stands for an entry that is still there.
  lemma DueRef(ms: seq<Muxer>, addresses: map<Spot, nat>, actionAt: map<nat, Spot>, refs: multiset<WeakRef>,
               due: multiset<WeakRef>, r: WeakRef)
    requires RefsMatch(ms, addresses, actionAt, refs + due) && r in due
    ensures r.action in actionAt
    ensures RefsMatch(ms, addresses, actionAt,
                      refs + (due - multiset{r}) + RefOf(ms, actionAt[r.action], r.action, r.observer))
  {
    var all := refs + due;
    assert all[WeakRef(r.observer, r.action)] > 0;
    assert refs + (due - multiset{r}) + multiset{r} == all;
  }

  lemma PrependTimes(ms: seq<Muxer>, m: nat, name: string, observer: nat, registered: multiset<Key>)
    requires TimesMatch(ms, registered) && m < |ms|
    ensures TimesMatch(Prepend(ms, m, name, observer), registered + multiset{Key(observer, m, name)})
  {
    forall k: Key
      ensures Times(Prepend(ms, m, name, observer), k) == (registered + multiset{Key(observer, m, name)})[k]
    {
      TimesPrepend(ms, m, name, observer, k);
      assert registered[k] == Times(ms, k);
    }
  }

  lemma DropTimes(ms: seq<Muxer>, m: nat, name: string, observer: nat, registered: multiset<Key>)
    requires TimesMatch(ms, registered) && m < |ms| && name in ms[m].watchers
    ensures
      var ms' := if observer in ms[m].watchers[name] then Drop(ms, m, name, observer) else ms;
      TimesMatch(ms', registered - multiset{Key(observer, m, name)})
  {
    var ms' := if observer in ms[m].watchers[name] then Drop(ms, m, name, observer) else ms;
    forall k: Key
      ensures Times(ms', k) == (registered - multiset{Key(observer, m, name)})[k]
    {
      assert registered[k] == Times(ms, k);
      if observer in ms[m].watchers[name] {
        TimesDrop(ms, m, name, observer, k);
      }
    }
  }

  lemma PrependOnlyWatchers(f: Forest, m: nat, name: string, observer: nat)
    requires m < |f.muxers|
    ensures
      var g := f.(muxers := Prepend(f.muxers, m, name, observer));
      && OnlyWatchers(f, g)
      && forall k :: Watches(g, k) <==> Watches(f, k) || k == Key(observer, m, name)
  {
  }

  lemma LinkedWatchers(f: Forest, g: Forest)
    requires Linked(f) && OnlyWatchers(f, g)
    ensures Linked(g) && forall x, name :: 0 <= x < |f.muxers| ==> Query(g, x, name) == Query(f, x, name)
  {
    forall x | 0 <= x < |g.muxers|
      ensures LinkedAt(g, x)
    {
      assert LinkedAt(f, x);
    }
    forall x, name | 0 <= x < |f.muxers|
      ensures Query(g, x, name) == Query(f, x, name)
    {
      SameAnswers(f, g, 0, x, name);
    }
  }

  // A further group and a further observer make no difference to which prefixes are shared.
  lemma NewWatcherSees(f: Forest, g: Forest, a: nat, m: nat, prefix: string, observer: nat, name: string)
    requires Linked(f) && Linked(g) && m < |f.muxers| && NearestShared(f, a, m, prefix)
    requires g.muxers == Prepend(f.muxers, m, name, observer) && g.rank == f.rank && g.height == f.height
    ensures NearestShared(g, a, m, prefix) && Watches(g, Key(observer, m, name))
    ensures |g.muxers| == |f.muxers| && forall x {:trigger g.muxers[x]} :: 0 <= x < |f.muxers| ==>
              g.muxers[x].groups == f.muxers[x].groups && g.muxers[x].parent == f.muxers[x].parent
  {
    PrependOnlyWatchers(f, m, name, observer);
    assert SameShape(f, g);
    SameBelow(f, g, a, m);
    HiddenAlike(f, g, a, prefix, f.muxers[m].parent.value);
  }

  // The new watcher's query gives it a right first view.
  lemma FirstView(f: Forest, g: Forest, views: Views, views': Views, key: Key)
    requires Linked(f) && ChildrenKnown(f, None) && Wired(f) && OnlyWatchers(f, g)
    requires forall k :: Watches(g, k) <==> Watches(f, k) || k == key
    requires key.muxer < |f.muxers|
    requires
      var first := Query(f, key.muxer, key.name);
      views' == if first.Some? then views[key := first.value] else views - {key}
    ensures Linked(g) && ChildrenKnown(g, None) && Wired(g)
    ensures Disjoint(f) ==> Disjoint(g)
    ensures Agree(f, views) ==> Agree(g, views')
  {
    hide Wired, Disjoint, ChildrenKnown, Query;
    WatchersSound(f, g);
    if Agree(f, views) {
      forall k | Watches(g, k)
        ensures View(views', k) == if Watches(f, k) then View(views, k) else Query(f, k.muxer, k.name)
      {
        assert Watches(f, k) ==> View(views, k) == Query(f, k.muxer, k.name);
      }
      WatchersKeep(f, g, views, views');
    }
  }

  lemma FewerWatchers(f: Forest, g: Forest, m: nat, name: string, observer: nat, views: Views)
    requires Linked(f) && ChildrenKnown(f, None) && Wired(f) && Disjoint(f) && Agree(f, views)
    requires m < |f.muxers| && name in f.muxers[m].watchers
    requires g == f.(muxers := Drop(f.muxers, m, name, observer))
    ensures Linked(g) && ChildrenKnown(g, None) && Wired(g) && Disjoint(g) && Agree(g, views)
  {
    var left := RemoveFirst(f.muxers[m].watchers[name], observer);
    assert forall k :: Watches(g, k) ==> Watches(f, k);
    WatchersSound(f, g);
    WatchersKeep(f, g, views, views);
  }

  lemma NoRefsNoTimes(ms: seq<Muxer>, addresses: map<Spot, nat>, actionAt: map<nat, Spot>, refs: multiset<WeakRef>,
                      registered: multiset<Key>, k: Key)
    requires Addressed(ms, addresses, actionAt) && RefsMatch(ms, addresses, actionAt, refs)
    requires TimesMatch(ms, registered) && forall r :: r in refs ==> r.observer != k.observer
    ensures registered[k] == 0
  {
    if k.muxer < |ms| && k.name in ms[k.muxer].watchers {
      var a := addresses[Spot(k.muxer, k.name)];
      assert WeakRef(k.observer, a) !in refs;
      assert refs[WeakRef(k.observer, a)] == 0;
    }
  }

  lemma StillApart(d: Forest, a: Forest, m: nat, up: nat, p: nat)
    requires Linked(d) && Linked(a) && Cut(d, a, m, up) && p < |a.muxers| && !Below(a, m, p) && Apart(a, m, p)
    ensures !Below(d, m, p) && Apart(d, m, p)
  {
    CutBelow(d, a, m, up, m, p);
    forall b, x, q | 0 <= b < |d.muxers| && 0 <= x < |d.muxers| && Below(d, b, p) && Below(d, m, x)
                     && q in d.muxers[b].groups
      ensures q !in d.muxers[x].groups
    {
      CutBelow(d, a, m, up, b, p);
      CutBelow(d, a, m, up, b, x);
      assert q in a.muxers[b].groups;
    }
  }

  lemma DistinctEmpty(xs: seq<string>)
    requires xs == []
    ensures Distinct(xs)
  {
  }

  lemma ParentRank(f: Forest, m: nat)
    requires Linked(f) && m < |f.muxers|
    ensures f.rank[m] < f.height
    ensures f.muxers[m].parent.Some? ==>
              f.muxers[m].parent.value < |f.muxers| && f.rank[m] < f.rank[f.muxers[m].parent.value] < f.height
  {
    assert LinkedAt(f, m);
    if f.muxers[m].parent.Some? {
      assert LinkedAt(f, f.muxers[m].parent.value);
    }
  }

  // No muxer above or below m has a group under this prefix.
  ghost predicate PrefixFree(f: Forest, m: nat, prefix: string)
    requires Linked(f) && m < |f.muxers|
  {
    forall x {:trigger f.muxers[x]} :: 0 <= x < |f.muxers| && x != m && (Below(f, m, x) || Below(f, x, m)) ==>
      prefix !in f.muxers[x].groups
  }

  lemma NoneLoose(f: Forest, m: nat)
    requires Linked(f)
    ensures NotUnder(f, m, None)
  {
  }

  lemma RemovedIsLess(f: Forest, g: Forest, m: nat, prefix: string, group: nat)
    requires Linked(g) && m < |g.muxers| && prefix in g.muxers[m].groups && group == g.muxers[m].groups[prefix]
    requires f == g.(muxers := g.muxers[m := g.muxers[m].(groups := g.muxers[m].groups - {prefix})])
    ensures OneGroupMore(f, g, m, prefix, group)
  {
    assert LinkedAt(g, m);
    assert (g.muxers[m].groups - {prefix})[prefix := group] == g.muxers[m].groups;
  }

  // The handlers of the removed group are disconnected last.
  lemma RemovedKeeps(f: Forest, g: Forest, h: Forest, m: nat, prefix: string, group: nat)
    requires Linked(f) && Linked(g) && m < |f.muxers| && OneGroupMore(f, g, m, prefix, group)
    requires Wired(g) && ChildrenKnown(g, None) && f.groups == g.groups
    requires h == f.(groups := f.groups[group := f.groups[group].(
                     listeners := Without(f.groups[group].listeners, Binding(m, prefix)))])
    ensures Linked(h) && ChildrenKnown(h, None) && Wired(h) && (Disjoint(g) ==> Disjoint(h))
  {
    OneGroupMoreShape(f, g, m, prefix, group);
    if Disjoint(g) {
      DisjointLess(f, g, m, prefix, group);
    }
    SameButListeners(f, h, map[]);
    WithoutDistinct(f.groups[group].listeners, Binding(m, prefix));
    RemovedWired(f, g, h, m, prefix, group);
  }

  // What m's observers know after gtk_action_muxer_remove.
  ghost function AfterRemoval(g: Forest, m: nat, prefix: string, k: Key, seen: Option<Info>): Option<Info>
    requires Linked(g) && m < |g.muxers|
  {
    assert LinkedAt(g, m);
    if prefix in g.muxers[m].groups
    then Retold(g, m, prefix, g.groups[g.muxers[m].groups[prefix]].actions, false, k, seen)
    else seen
  }

  // Being told of a removal does not depend on whether the group is still there.
  lemma RemovedAlike(f: Forest, g: Forest, m: nat, prefix: string, group: nat, actions: map<string, Info>, k: Key,
                     seen: Option<Info>)
    requires Linked(f) && Linked(g) && m < |f.muxers| && OneGroupMore(f, g, m, prefix, group)
    ensures Retold(f, m, prefix, actions, false, k, seen) == Retold(g, m, prefix, actions, false, k, seen)
  {
    if k.muxer < |f.muxers| {
      OneGroupMoreShape(f, g, m, prefix, group);
      SameBelow(f, g, m, k.muxer);
      assert f.muxers[k.muxer].watchers == g.muxers[k.muxer].watchers;
    }
  }

  lemma RemovedViews(f: Forest, g: Forest, h: Forest, m: nat, prefix: string, group: nat, views: Views, views': Views)
    requires Linked(f) && Linked(g) && Linked(h) && m < |f.muxers| && OneGroupMore(f, g, m, prefix, group)
    requires h.muxers == f.muxers && h.rank == f.rank && h.height == f.height && |h.groups| == |f.groups|
    requires forall y {:trigger f.groups[y]} :: 0 <= y < |f.groups| ==> h.groups[y].actions == f.groups[y].actions
    requires forall k ::
               View(views', k) == Retold(g, m, prefix, f.groups[group].actions, false, k, View(views, k))
    ensures forall k :: View(views', k) == AfterRemoval(g, m, prefix, k, View(views, k))
    ensures Agree(g, views) ==> (Agree(h, views') <==> RemovalSafe(g, m, prefix))
    ensures Disjoint(g) ==> RemovalSafe(g, m, prefix)
  {
    assert g.muxers[m].groups[prefix] == group && LinkedAt(g, m);
    if Disjoint(g) {
      DisjointIsSafe(f, g, m, prefix, group);
    }
    if Agree(g, views) {
      forall k | Watches(g, k)
        ensures Watches(h, k)
        ensures View(views', k) == Query(h, k.muxer, k.name) <==> RemovalRight(g, m, prefix, k)
      {
        WatchedAlike(f, g, m, prefix, group, k);
        RemovalExact(f, g, m, prefix, group, k, View(views, k));
        SameQuery(f, h, k.muxer, k.name);
      }
      forall k | Watches(h, k)
        ensures Watches(g, k)
      {
        WatchedAlike(f, g, m, prefix, group, k);
      }
    }
  }

  lemma WatchedAlike(f: Forest, g: Forest, m: nat, prefix: string, group: nat, k: Key)
    requires m < |f.muxers| && OneGroupMore(f, g, m, prefix, group)
    ensures Watches(f, k) <==> Watches(g, k)
  {
    if k.muxer < |f.muxers| && k.muxer != m {
      assert g.muxers[k.muxer] == f.muxers[k.muxer];
    }
  }

  lemma NothingToRemove(f: Forest, m: nat, prefix: string)
    requires Linked(f) && m < |f.muxers| && prefix !in f.muxers[m].groups
    ensures RemovalSafe(f, m, prefix)
  {
  }

  lemma NothingRetold(f: Forest, views: Views, m: nat, prefix: string, added: bool)
    requires Linked(f)
    ensures forall k :: View(views, k) == Retold(f, m, prefix, map[], added, k, View(views, k))
  {
  }

  lemma GroupThere(f: Forest, m: nat, prefix: string)
    requires Linked(f) && m < |f.muxers| && prefix in f.muxers[m].groups
    ensures f.muxers[m].groups[prefix] < |f.groups| && '.' !in prefix
  {
    assert LinkedAt(f, m);
  }

  lemma RemovedWired(f: Forest, g: Forest, h: Forest, m: nat, prefix: string, group: nat)
    requires m < |f.muxers| && OneGroupMore(f, g, m, prefix, group) && Wired(g) && f.groups == g.groups
    requires h == f.(groups := f.groups[group := f.groups[group].(
                     listeners := Without(f.groups[group].listeners, Binding(m, prefix)))])
    requires forall i, j :: 0 <= i < j < |h.groups[group].listeners| ==>
               h.groups[group].listeners[i] != h.groups[group].listeners[j]
    ensures Wired(h)
  {
    forall x, p | 0 <= x < |h.muxers| && p in h.muxers[x].groups
      ensures h.muxers[x].groups[p] < |h.groups| && Binding(x, p) in h.groups[h.muxers[x].groups[p]].listeners
    {
      assert p in g.muxers[x].groups;
    }
    forall y, b | 0 <= y < |h.groups| && b in h.groups[y].listeners
      ensures b.muxer < |h.muxers| && b.prefix in h.muxers[b.muxer].groups && h.muxers[b.muxer].groups[b.prefix] == y
    {
      assert b in g.groups[y].listeners;
    }
  }

  // Listeners matter to no query.
  lemma SameButListeners(f: Forest, h: Forest, views: Views)
    requires Linked(f) && h.muxers == f.muxers && h.rank == f.rank && h.height == f.height && |h.groups| == |f.groups|
    requires forall y {:trigger f.groups[y]} :: 0 <= y < |f.groups| ==> h.groups[y].actions == f.groups[y].actions
    ensures Linked(h)
    ensures ChildrenKnown(f, None) ==> ChildrenKnown(h, None)
    ensures Disjoint(f) ==> Disjoint(h)
    ensures Agree(f, views) ==> Agree(h, views)
  {
    forall x | 0 <= x < |f.muxers|
      ensures LinkedAt(h, x)
    {
      assert LinkedAt(f, x);
    }
    if Disjoint(f) {
      SameDisjoint(f, h);
    }
    if Agree(f, views) {
      forall k | Watches(h, k)
        ensures View(views, k) == Query(h, k.muxer, k.name)
      {
        assert Watches(f, k);
        SameQuery(f, h, k.muxer, k.name);
      }
    }
  }

  lemma {:induction false} SameQuery(f: Forest, h: Forest, m: nat, name: string)
    requires Linked(f) && Linked(h) && h.muxers == f.muxers && h.rank == f.rank && h.height == f.height
    requires |h.groups| == |f.groups| && m < |f.muxers|
    requires forall y {:trigger f.groups[y]} :: 0 <= y < |f.groups| ==> h.groups[y].actions == f.groups[y].actions
    ensures Query(h, m, name) == Query(f, m, name)
    decreases f.height - f.rank[m]
  {
    assert LinkedAt(f, m);
    var split := SplitName(name);
    if split.Some? && split.value.prefix in f.muxers[m].groups {
      assert f.groups[f.muxers[m].groups[split.value.prefix]].actions
          == h.groups[f.muxers[m].groups[split.value.prefix]].actions;
    } else if f.muxers[m].parent.Some? {
      SameQuery(f, h, f.muxers[m].parent.value, name);
    }
  }

  lemma DisjointLess(f: Forest, g: Forest, m: nat, prefix: string, group: nat)
    requires Linked(f) && Linked(g) && m < |f.muxers| && OneGroupMore(f, g, m, prefix, group) && Disjoint(g)
    ensures Disjoint(f)
  {
    OneGroupMoreShape(f, g, m, prefix, group);
    forall a, x, p | 0 <= a < |f.muxers| && 0 <= x < |f.muxers| && a != x && Below(f, a, x) && p in f.muxers[a].groups
      ensures p !in f.muxers[x].groups
    {
      SameBelow(f, g, a, x);
      assert p in g.muxers[a].groups;
      assert forall q :: q in f.muxers[x].groups ==> q in g.muxers[x].groups;
    }
  }

  lemma InsertedDisjoint(f: Forest, g: Forest, m: nat, prefix: string, group: nat)
    requires Linked(f) && Linked(g) && m < |f.muxers| && OneGroupMore(f, g, m, prefix, group)
    requires Disjoint(f) && PrefixFree(f, m, prefix)
    ensures Disjoint(g)
  {
    OneGroupMoreShape(f, g, m, prefix, group);
    forall a, x, p | 0 <= a < |g.muxers| && 0 <= x < |g.muxers| && a != x && Below(g, a, x) && p in g.muxers[a].groups
      ensures p !in g.muxers[x].groups
    {
      SameBelow(f, g, a, x);
      assert a != m ==> g.muxers[a] == f.muxers[a];
      assert x != m ==> g.muxers[x] == f.muxers[x];
    }
  }

  // Whether a prefix is free at m has to do with the other muxers only.
  lemma FreeAlike(f: Forest, g: Forest, m: nat, prefix: string)
    requires Linked(f) && Linked(g) && m < |f.muxers| == |g.muxers|
    requires g.rank == f.rank && g.height == f.height
    requires g.muxers == f.muxers[m := f.muxers[m].(groups := g.muxers[m].groups)]
    ensures PrefixFree(f, m, prefix) <==> PrefixFree(g, m, prefix)
  {
    forall x | 0 <= x < |f.muxers| && x != m
      ensures Below(f, m, x) <==> Below(g, m, x)
      ensures Below(f, x, m) <==> Below(g, x, m)
    {
      SameBelow(f, g, m, x);
      SameBelow(f, g, x, m);
    }
    assert forall x {:trigger f.muxers[x]} {:trigger g.muxers[x]} :: 0 <= x < |f.muxers| && x != m ==>
        g.muxers[x] == f.muxers[x];
  }

  lemma FreeIfDisjoint(f: Forest, m: nat, prefix: string)
    requires Linked(f) && Disjoint(f) && m < |f.muxers| && prefix in f.muxers[m].groups
    ensures PrefixFree(f, m, prefix)
  {
    forall x | 0 <= x < |f.muxers| && x != m && (Below(f, m, x) || Below(f, x, m))
      ensures prefix !in f.muxers[x].groups
    {
    }
  }

  // The handlers of the inserted group are connected last.
  lemma InsertedKeeps(f: Forest, g: Forest, h: Forest, m: nat, prefix: string, group: nat)
    requires Linked(f) && Linked(g) && m < |f.muxers| && OneGroupMore(f, g, m, prefix, group)
    requires Wired(f) && ChildrenKnown(g, None) && f.groups == g.groups
    requires h == g.(groups := g.groups[group := g.groups[group].(
                     listeners := g.groups[group].listeners + [Binding(m, prefix)])])
    ensures Linked(h) && ChildrenKnown(h, None) && Wired(h)
    ensures Disjoint(f) && PrefixFree(f, m, prefix) ==> Disjoint(h)
  {
    if Disjoint(f) && PrefixFree(f, m, prefix) {
      InsertedDisjoint(f, g, m, prefix, group);
    }
    SameButListeners(g, h, map[]);
    InsertedWired(f, g, h, m, prefix, group);
  }

  lemma InsertedViews(f: Forest, g: Forest, h: Forest, m: nat, prefix: string, group: nat, views: Views, views': Views)
    requires Linked(f) && Linked(g) && Linked(h) && m < |f.muxers| && OneGroupMore(f, g, m, prefix, group)
    requires h.muxers == g.muxers && h.rank == g.rank && h.height == g.height && |h.groups| == |g.groups|
    requires forall y {:trigger g.groups[y]} :: 0 <= y < |g.groups| ==> h.groups[y].actions == g.groups[y].actions
    requires forall k ::
               View(views', k) == Retold(g, m, prefix, g.groups[group].actions, true, k, View(views, k))
    ensures forall k :: View(views', k) == Retold(h, m, prefix, h.groups[group].actions, true, k, View(views, k))
    ensures Agree(f, views) ==> (Agree(h, views') <==> InsertionSafe(f, m, prefix, group))
    ensures Disjoint(f) && PrefixFree(f, m, prefix) ==> InsertionSafe(f, m, prefix, group)
  {
    assert f.groups[group].actions == g.groups[group].actions;
    if Disjoint(f) && PrefixFree(f, m, prefix) {
      InsertedDisjoint(f, g, m, prefix, group);
      DisjointIsSafe(f, g, m, prefix, group);
    }
    forall k
      ensures Retold(h, m, prefix, g.groups[group].actions, true, k, View(views, k))
              == Retold(g, m, prefix, g.groups[group].actions, true, k, View(views, k))
    {
      RetoldAlike(g, h, m, prefix, g.groups[group].actions, k, View(views, k));
    }
    if Agree(f, views) {
      forall k | Watches(f, k)
        ensures Watches(h, k)
        ensures View(views', k) == Query(h, k.muxer, k.name)
                <==> InsertionRight(f, m, prefix, f.groups[group].actions, k)
      {
        WatchedAlike(f, g, m, prefix, group, k);
        InsertionExact(f, g, m, prefix, group, k, View(views, k));
        SameQuery(g, h, k.muxer, k.name);
      }
      forall k | Watches(h, k)
        ensures Watches(f, k)
      {
        WatchedAlike(f, g, m, prefix, group, k);
      }
    }
  }

  lemma RetoldAlike(g: Forest, h: Forest, m: nat, prefix: string, actions: map<string, Info>, k: Key,
                    seen: Option<Info>)
    requires Linked(g) && Linked(h)
    requires h.muxers == g.muxers && h.rank == g.rank && h.height == g.height && |h.groups| == |g.groups|
    requires forall y {:trigger g.groups[y]} :: 0 <= y < |g.groups| ==> h.groups[y].actions == g.groups[y].actions
    ensures Retold(h, m, prefix, actions, true, k, seen) == Retold(g, m, prefix, actions, true, k, seen)
  {
    if k.muxer < |g.muxers| {
      assert LinkedAt(g, k.muxer);
      SameBelow(g, h, m, k.muxer);
      if g.muxers[k.muxer].parent.Some? {
        SameQuery(g, h, g.muxers[k.muxer].parent.value, k.name);
      }
    }
  }

  lemma InsertedWired(f: Forest, g: Forest, h: Forest, m: nat, prefix: string, group: nat)
    requires m < |f.muxers| && OneGroupMore(f, g, m, prefix, group) && Wired(f) && f.groups == g.groups
    requires h == g.(groups := g.groups[group := g.groups[group].(
                     listeners := g.groups[group].listeners + [Binding(m, prefix)])])
    ensures Wired(h)
  {
    forall x, p | 0 <= x < |h.muxers| && p in h.muxers[x].groups
      ensures h.muxers[x].groups[p] < |h.groups| && Binding(x, p) in h.groups[h.muxers[x].groups[p]].listeners
    {
      if x != m || p != prefix {
        assert p in f.muxers[x].groups;
      }
    }
    forall y, b | 0 <= y < |h.groups| && b in h.groups[y].listeners
      ensures b.muxer < |h.muxers| && b.prefix in h.muxers[b.muxer].groups && h.muxers[b.muxer].groups[b.prefix] == y
    {
      assert b != Binding(m, prefix) ==> b in f.groups[y].listeners;
    }
    InsertedListeners(f, h, m, prefix, group);
  }

  lemma InsertedListeners(f: Forest, h: Forest, m: nat, prefix: string, group: nat)
    requires m < |f.muxers| && Wired(f) && group < |f.groups| && prefix !in f.muxers[m].groups
    requires h.groups == f.groups[group := f.groups[group].(
                           listeners := f.groups[group].listeners + [Binding(m, prefix)])]
    ensures forall y, i, j {:trigger h.groups[y].listeners[i], h.groups[y].listeners[j]} ::
              0 <= y < |h.groups| && 0 <= i < j < |h.groups[y].listeners| ==>
                h.groups[y].listeners[i] != h.groups[y].listeners[j]
  {
    var b := Binding(m, prefix);
    assert b !in f.groups[group].listeners;
    forall y, i, j | 0 <= y < |h.groups| && 0 <= i < j < |h.groups[y].listeners|
      ensures h.groups[y].listeners[i] != h.groups[y].listeners[j]
    {
      assert i < |f.groups[y].listeners| && h.groups[y].listeners[i] == f.groups[y].listeners[i];
      assert f.groups[y].listeners[i] in f.groups[y].listeners;
    }
  }

  lemma ListenerExists(f: Forest, group: nat, i: nat)
    requires Linked(f) && Wired(f) && group < |f.groups| && i < |f.groups[group].listeners|
    ensures f.groups[group].listeners[i].muxer < |f.muxers|
    ensures NotUnder(f, f.groups[group].listeners[i].muxer, None)
  {
    assert f.groups[group].listeners[i] in f.groups[group].listeners;
  }

  // Later listeners stand for other spots.
  lemma RestDistinct(f: Forest, group: nat, action: string, i: nat)
    requires Linked(f) && Wired(f) && group < |f.groups| && i < |f.groups[group].listeners|
    ensures
      var listeners := f.groups[group].listeners;
      var s := Spot(listeners[i].muxer, FullName(listeners[i].prefix, action));
      s !in SpotsOf(listeners[i + 1..], action)
  {
    var listeners := f.groups[group].listeners;
    var s := Spot(listeners[i].muxer, FullName(listeners[i].prefix, action));
    if s in SpotsOf(listeners[i + 1..], action) {
      var j :| 0 <= j < |listeners[i + 1..]|
               && s == Spot(listeners[i + 1..][j].muxer, FullName(listeners[i + 1..][j].prefix, action));
      assert listeners[i + 1..][j] == listeners[i + 1 + j];
      assert listeners[i] in listeners && listeners[i + 1 + j] in listeners;
      SplitFull(listeners[i].prefix, action);
      SplitFull(listeners[i + 1 + j].prefix, action);
    }
  }
}
