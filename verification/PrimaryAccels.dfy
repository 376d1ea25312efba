/**
  The primary accelerators of src/gtkactionmuxer.c: each muxer has a table of its own, which comes before its parent's,
  and a change is told to the observers below unless a nearer table hides it.
 */
module PrimaryAccels {
  import opened Wrappers
  import opened ActionMuxer

  type Table = map<string, string>

  // strrchr (action_and_target, '|') + 1
  function ActionOf(key: string): string
    requires '|' in key
  {
    if '|' in key[1..] then ActionOf(key[1..])
    else
      assert key[0] == '|' by { assert key == [key[0]] + key[1..]; }
      key[1..]
  }

  // gtk_print_action_and_target separates the target from the action by a bar; an action has none.
  lemma {:induction false} ActionOfPrinted(target: string, action: string)
    requires '|' !in action
    ensures '|' in target + "|" + action && ActionOf(target + "|" + action) == action
  {
    var key := target + "|" + action;
    assert key[|target|] == '|';
    if target == [] {
      assert key[1..] == action;
    } else {
      ActionOfPrinted(target[1..], action);
      assert key[1..] == target[1..] + "|" + action;
    }
  }

  // gtk_action_muxer_get_primary_accel
  ghost function Accel(f: Forest, tables: seq<Table>, m: nat, key: string): Option<string>
    requires Linked(f) && |tables| == |f.muxers| && m < |f.muxers|
    decreases f.height - f.rank[m]
  {
    if key in tables[m] then Some(tables[m][key])
    else if f.muxers[m].parent.Some? then Accel(f, tables, f.muxers[m].parent.value, key)
    else None
  }

  // m is a, or below it with no table in between, m's included, that has the key.
  ghost predicate Reached(f: Forest, tables: seq<Table>, key: string, a: nat, m: nat)
    requires Linked(f) && |tables| == |f.muxers| && m < |f.muxers|
    decreases f.height - f.rank[m]
  {
    m == a
    || (key !in tables[m] && f.muxers[m].parent.Some? && Reached(f, tables, key, a, f.muxers[m].parent.value))
  }

  // What an observer of action ActionOf(key) takes the accelerator for `key` to be.
  datatype AccelKey = AccelKey(observer: nat, muxer: nat, key: string)
  type AccelViews = map<AccelKey, string>

  function AccelView(views: AccelViews, k: AccelKey): Option<string> {
    if k in views then Some(views[k]) else None
  }

  ghost predicate WatchesAccel(f: Forest, k: AccelKey) {
    k.muxer < |f.muxers| && '|' in k.key && k.observer in WatchersOf(f.muxers[k.muxer], ActionOf(k.key))
  }

  ghost predicate AccelsAgree(f: Forest, tables: seq<Table>, views: AccelViews)
    requires Linked(f) && |tables| == |f.muxers|
  {
    forall k {:trigger WatchesAccel(f, k)} :: WatchesAccel(f, k) ==>
      AccelView(views, k) == Accel(f, tables, k.muxer, k.key)
  }

  // A change of one entry shows only where it reaches.
  lemma {:induction false} AccelUnlessReached(f: Forest, tables: seq<Table>, tables': seq<Table>, a: nat, key: string,
                                              m: nat, other: string)
    requires Linked(f) && |tables| == |tables'| == |f.muxers| && m < |f.muxers| && a < |f.muxers|
    requires forall x :: 0 <= x < |tables| && x != a ==> tables'[x] == tables[x]
    requires forall k :: k != key ==>
               (k in tables'[a] <==> k in tables[a]) && (k in tables[a] ==> tables'[a][k] == tables[a][k])
    ensures other != key || !Reached(f, tables', key, a, m) ==>
              Accel(f, tables', m, other) == Accel(f, tables, m, other)
    decreases f.height - f.rank[m]
  {
    assert LinkedAt(f, m);
    if f.muxers[m].parent.Some? {
      AccelUnlessReached(f, tables, tables', a, key, f.muxers[m].parent.value, other);
    }
  }

  // The views once the change has been told to a and what it reaches.
  ghost function Requeried(f: Forest, tables: seq<Table>, views: AccelViews, key: string, k: AccelKey, told: bool)
      : Option<string>
    requires Linked(f) && |tables| == |f.muxers|
  {
    if k.key == key && told && WatchesAccel(f, k) then Accel(f, tables, k.muxer, key) else AccelView(views, k)
  }

  ghost predicate ReachedBy(f: Forest, tables: seq<Table>, key: string, a: nat, n: nat, m: nat)
    requires Linked(f) && |tables| == |f.muxers| && a < |f.muxers| && n <= |f.muxers[a].children|
  {
    m < |f.muxers|
    && (m == a || exists i :: 0 <= i < n && f.muxers[a].children[i] < |f.muxers|
                              && key !in tables[f.muxers[a].children[i]]
                              && Reached(f, tables, key, f.muxers[a].children[i], m))
  }

  // What the change reaches is the muxer itself and what it reaches through a child that has no entry of its own.
  lemma {:induction false} ReachedByChild(f: Forest, tables: seq<Table>, key: string, a: nat, m: nat)
    requires Linked(f) && ChildrenKnown(f, None) && |tables| == |f.muxers| && a < |f.muxers| && m < |f.muxers|
    requires Reached(f, tables, key, a, m)
    ensures ReachedBy(f, tables, key, a, |f.muxers[a].children|, m)
    decreases f.height - f.rank[m]
  {
    assert LinkedAt(f, m) && LinkedAt(f, a);
    if m != a {
      var p := f.muxers[m].parent.value;
      assert m in f.muxers[p].children;
      ReachedByChild(f, tables, key, a, p);
      if p == a {
        var i :| 0 <= i < |f.muxers[a].children| && f.muxers[a].children[i] == m;
        assert Reached(f, tables, key, f.muxers[a].children[i], m);
      } else {
        var i :| 0 <= i < |f.muxers[a].children| && f.muxers[a].children[i] < |f.muxers|
                 && key !in tables[f.muxers[a].children[i]] && Reached(f, tables, key, f.muxers[a].children[i], p);
        assert Reached(f, tables, key, f.muxers[a].children[i], m);
      }
    }
  }

  lemma {:induction false} ReachedThrough(f: Forest, tables: seq<Table>, key: string, a: nat, c: nat, m: nat)
    requires Linked(f) && |tables| == |f.muxers| && m < |f.muxers| && c < |f.muxers|
    requires f.muxers[c].parent == Some(a) && key !in tables[c] && Reached(f, tables, key, c, m)
    ensures Reached(f, tables, key, a, m)
    decreases f.height - f.rank[m]
  {
    assert LinkedAt(f, m) && LinkedAt(f, c);
    if m == c {
      assert Reached(f, tables, key, a, a);
    } else {
      ReachedThrough(f, tables, key, a, c, f.muxers[m].parent.value);
    }
  }

  lemma ReachedExactly(f: Forest, tables: seq<Table>, key: string, a: nat, m: nat)
    requires Linked(f) && ChildrenKnown(f, None) && |tables| == |f.muxers| && a < |f.muxers| && m < |f.muxers|
    ensures ReachedBy(f, tables, key, a, |f.muxers[a].children|, m) <==> Reached(f, tables, key, a, m)
  {
    assert LinkedAt(f, a);
    if Reached(f, tables, key, a, m) {
      ReachedByChild(f, tables, key, a, m);
    }
    if m != a && ReachedBy(f, tables, key, a, |f.muxers[a].children|, m) {
      var i :| 0 <= i < |f.muxers[a].children| && f.muxers[a].children[i] < |f.muxers|
               && key !in tables[f.muxers[a].children[i]] && Reached(f, tables, key, f.muxers[a].children[i], m);
      assert f.muxers[a].children[i] in f.muxers[a].children;
      ReachedThrough(f, tables, key, a, f.muxers[a].children[i], m);
    }
  }

  // ---------- a change of parent ----------

  // What a parent answers, if there is one.
  ghost function UpAnswer(f: Forest, tables: seq<Table>, parent: Option<nat>, key: string): Option<string>
    requires Linked(f) && |tables| == |f.muxers| && (parent.Some? ==> parent.value < |f.muxers|)
  {
    if parent.Some? then Accel(f, tables, parent.value, key) else None
  }

  // m is x, or above it, and no table from x up to m has the key.
  ghost predicate Exposed(f: Forest, tables: seq<Table>, key: string, m: nat, x: nat)
    requires Linked(f) && |tables| == |f.muxers| && m < |f.muxers| && x < |f.muxers|
  {
    key !in tables[m] && Reached(f, tables, key, m, x)
  }

  /**
    What a change of m's parent leaves wrong: accelerators that only the old parent answered. The notifications for them
    are all sent before the link is cut.
   */
  ghost predicate Dropped(f: Forest, tables: seq<Table>, m: nat, parent: Option<nat>, k: AccelKey)
    requires Linked(f) && |tables| == |f.muxers| && m < |f.muxers| && (parent.Some? ==> parent.value < |f.muxers|)
  {
    && k.muxer < |f.muxers| && Exposed(f, tables, k.key, m, k.muxer)
    && (assert LinkedAt(f, m); UpAnswer(f, tables, f.muxers[m].parent, k.key)).Some?
    && UpAnswer(f, tables, parent, k.key).None?
  }

  lemma {:induction false} ExposedAnswer(f: Forest, tables: seq<Table>, key: string, m: nat, x: nat)
    requires Linked(f) && |tables| == |f.muxers| && m < |f.muxers| && x < |f.muxers|
    requires Exposed(f, tables, key, m, x)
    ensures LinkedAt(f, m) && Accel(f, tables, x, key) == UpAnswer(f, tables, f.muxers[m].parent, key)
    decreases f.height - f.rank[x]
  {
    assert LinkedAt(f, x) && LinkedAt(f, m);
    if x != m {
      ExposedAnswer(f, tables, key, m, f.muxers[x].parent.value);
    }
  }

  ghost predicate SameBesides(f: Forest, g: Forest, m: nat) {
    |g.muxers| == |f.muxers| && m < |f.muxers|
    && forall x :: 0 <= x < |f.muxers| && x != m ==> g.muxers[x].parent == f.muxers[x].parent
  }

  // Whatever m's parent is, the rest is answered as before.
  lemma {:induction false} AnswerBesides(f: Forest, g: Forest, tables: seq<Table>, key: string, m: nat, x: nat)
    requires Linked(f) && Linked(g) && |tables| == |f.muxers| && SameBesides(f, g, m) && x < |f.muxers|
    ensures Reached(g, tables, key, m, x) <==> Reached(f, tables, key, m, x)
    ensures !Exposed(f, tables, key, m, x) ==> Accel(g, tables, x, key) == Accel(f, tables, x, key)
    ensures Reached(f, tables, key, m, x) ==> Below(f, m, x)
    decreases f.height - f.rank[x]
  {
    assert LinkedAt(f, x);
    if x != m && f.muxers[x].parent.Some? {
      AnswerBesides(f, g, tables, key, m, f.muxers[x].parent.value);
    }
  }

  lemma AboveSame(f: Forest, g: Forest, tables: seq<Table>, key: string, m: nat, parent: Option<nat>)
    requires Linked(f) && Linked(g) && |tables| == |f.muxers| && SameBesides(f, g, m)
    requires parent.Some? ==> parent.value < |f.muxers| && !Below(f, m, parent.value)
    ensures UpAnswer(g, tables, parent, key) == UpAnswer(f, tables, parent, key)
  {
    if parent.Some? {
      AnswerBesides(f, g, tables, key, m, parent.value);
    }
  }

  // The views that were right before, and of which those that ask again after the change have.
  lemma ParentChanged(f: Forest, g: Forest, tables: seq<Table>, m: nat, parent: Option<nat>, k: AccelKey,
                      seen: Option<string>)
    requires Linked(f) && Linked(g) && |tables| == |f.muxers| && SameBesides(f, g, m) && g.muxers[m].parent == parent
    requires parent.Some? ==> parent.value < |f.muxers| && !Below(f, m, parent.value)
    requires k.muxer < |f.muxers|
    requires seen == if UpAnswer(g, tables, parent, k.key).Some? && Reached(g, tables, k.key, m, k.muxer)
                     then Accel(g, tables, k.muxer, k.key) else Accel(f, tables, k.muxer, k.key)
    ensures seen == Accel(g, tables, k.muxer, k.key) <==> !Dropped(f, tables, m, parent, k)
  {
    AnswerBesides(f, g, tables, k.key, m, k.muxer);
    AboveSame(f, g, tables, k.key, m, parent);
    if Exposed(f, tables, k.key, m, k.muxer) {
      ExposedAnswer(f, tables, k.key, m, k.muxer);
      ExposedAnswer(g, tables, k.key, m, k.muxer);
    }
  }

  // Which views have asked again, when what `parent` answers was told to m and what it reaches.
  ghost predicate AskedUp(f: Forest, tables: seq<Table>, views: AccelViews, views': AccelViews, m: nat,
                         parent: Option<nat>)
    requires Linked(f) && |tables| == |f.muxers| && (parent.Some? ==> parent.value < |f.muxers|)
  {
    forall k :: AccelView(views', k)
      == Requeried(f, tables, views, k.key, k,
                   UpAnswer(f, tables, parent, k.key).Some? && k.muxer < |tables|
                   && Reached(f, tables, k.key, m, k.muxer))
  }

  lemma AskedAgain(f: Forest, tables: seq<Table>, views: AccelViews, views': AccelViews, m: nat, parent: Option<nat>)
    requires Linked(f) && |tables| == |f.muxers| && (parent.Some? ==> parent.value < |f.muxers|)
    requires AccelsAgree(f, tables, views) && AskedUp(f, tables, views, views', m, parent)
    ensures AccelsAgree(f, tables, views')
  {
  }

  lemma AccelsKept(f: Forest, tables: seq<Table>, m: nat, views: AccelViews)
    requires Linked(f) && |tables| == |f.muxers| && m < |f.muxers| && LinkedAt(f, m) && AccelsAgree(f, tables, views)
    ensures forall k :: !Dropped(f, tables, m, f.muxers[m].parent, k)
    ensures forall k :: WatchesAccel(f, k) ==> AccelView(views, k) == Accel(f, tables, k.muxer, k.key)
  {
  }

  lemma AllParentChanged(f: Forest, g: Forest, tables: seq<Table>, m: nat, parent: Option<nat>, views: AccelViews,
                         views': AccelViews)
    requires Linked(f) && Linked(g) && |tables| == |f.muxers| && SameBesides(f, g, m) && g.muxers[m].parent == parent
    requires forall x :: 0 <= x < |f.muxers| ==> g.muxers[x].watchers == f.muxers[x].watchers
    requires parent.Some? ==> parent.value < |f.muxers| && !Below(f, m, parent.value)
    requires AccelsAgree(f, tables, views) && AskedUp(g, tables, views, views', m, parent)
    ensures forall k :: WatchesAccel(g, k) <==> WatchesAccel(f, k)
    ensures forall k :: WatchesAccel(g, k) ==>
              (AccelView(views', k) == Accel(g, tables, k.muxer, k.key) <==> !Dropped(f, tables, m, parent, k))
  {
    hide Linked, Accel, Reached, Dropped, UpAnswer, Below, LinkedAt;
    forall k | WatchesAccel(g, k)
      ensures WatchesAccel(f, k)
      ensures AccelView(views', k) == Accel(g, tables, k.muxer, k.key) <==> !Dropped(f, tables, m, parent, k)
    {
      assert WatchesAccel(f, k);
      assert AccelView(views, k) == Accel(f, tables, k.muxer, k.key);
      ParentChanged(f, g, tables, m, parent, k, AccelView(views', k));
    }
  }

  lemma AgreeIff(f: Forest, g: Forest, tables: seq<Table>, m: nat, parent: Option<nat>, views: AccelViews)
    requires Linked(f) && Linked(g) && |tables| == |f.muxers| == |g.muxers| && m < |f.muxers|
    requires parent.Some? ==> parent.value < |f.muxers|
    requires forall k :: WatchesAccel(g, k) <==> WatchesAccel(f, k)
    requires forall k :: WatchesAccel(g, k) ==>
               (AccelView(views, k) == Accel(g, tables, k.muxer, k.key) <==> !Dropped(f, tables, m, parent, k))
    ensures AccelsAgree(g, tables, views) <==> forall k :: WatchesAccel(f, k) ==> !Dropped(f, tables, m, parent, k)
  {
    hide Linked, Accel, Dropped;
    if forall k :: WatchesAccel(f, k) ==> !Dropped(f, tables, m, parent, k) {
      forall k | WatchesAccel(g, k)
        ensures AccelView(views, k) == Accel(g, tables, k.muxer, k.key)
      {
      }
    }
  }

  // Every key in a table has the bar gtk_print_action_and_target puts in.
  ghost predicate Barred(tables: seq<Table>) {
    forall t, key :: t in tables && key in t ==> '|' in key
  }

  class Accelerators {
    const world: World
    // The primary_accels of each muxer; an absent table is an empty one.
    var tables: seq<Table>
    var views: AccelViews

    constructor (world: World)
      requires Linked(world.Now())
      ensures this.world == world && views == map[] && tables == seq(|world.muxers|, _ => map[])
      ensures AccelsAgree(world.Now(), tables, views)
    {
      this.world := world;
      tables, views := seq(|world.muxers|, _ => map[]), map[];
      new;
      forall m, key | 0 <= m < |world.muxers|
        ensures Accel(world.Now(), tables, m, key) == None
      {
        NoAccels(world.Now(), tables, m, key);
      }
    }

    // gtk_action_muxer_get_primary_accel
    method GetPrimaryAccel(m: nat, key: string) returns (accel: Option<string>)
      requires Linked(world.Now()) && |tables| == |world.muxers| && m < |tables|
      ensures accel == Accel(world.Now(), tables, m, key)
      decreases world.height - world.rank[m]
    {
      if key in tables[m] {
        return Some(tables[m][key]);
      }
      if world.muxers[m].parent == None {
        return None;
      }
      accel := GetPrimaryAccel(world.muxers[m].parent.value, key);
    }

    /**
      gtk_action_muxer_primary_accel_changed and, for each child, gtk_action_muxer_parent_primary_accel_changed: the
      observers of the action ask again, and a child with an entry of its own does not pass the change on.
     */
    method PrimaryAccelChanged(m: nat, key: string)
      requires Linked(world.Now()) && ChildrenKnown(world.Now(), None)
      requires |tables| == |world.muxers| && m < |tables| && '|' in key
      modifies this`views
      ensures forall k :: AccelView(views, k)
                == Requeried(world.Now(), tables, old(views), key, k,
                             k.muxer < |tables| && Reached(world.Now(), tables, key, m, k.muxer))
      decreases world.rank[m]
    {
      ghost var f, before := world.Now(), views;
      TellObservers(m, key);
      assert LinkedAt(f, m);
      var i := 0;
      while i < |world.muxers[m].children|
        invariant 0 <= i <= |world.muxers[m].children|
        invariant forall k :: AccelView(views, k)
                    == Requeried(f, tables, before, key, k, ReachedBy(f, tables, key, m, i, k.muxer))
      {
        var child := world.muxers[m].children[i];
        assert child in world.muxers[m].children;
        assert LinkedAt(f, child);
        if key !in tables[child] {
          PrimaryAccelChanged(child, key);
        }
        forall k: AccelKey
          ensures ReachedBy(f, tables, key, m, i + 1, k.muxer)
                  <==> ReachedBy(f, tables, key, m, i, k.muxer)
                       || (k.muxer < |tables| && key !in tables[child] && Reached(f, tables, key, child, k.muxer))
        {
        }
        i := i + 1;
      }
      forall k: AccelKey | k.muxer < |tables|
        ensures ReachedBy(f, tables, key, m, i, k.muxer) <==> Reached(f, tables, key, m, k.muxer)
      {
        ReachedExactly(f, tables, key, m, k.muxer);
      }
    }

    method TellObservers(m: nat, key: string)
      requires Linked(world.Now()) && |tables| == |world.muxers| && m < |tables| && '|' in key
      modifies this`views
      ensures forall k :: AccelView(views, k)
                == Requeried(world.Now(), tables, old(views), key, k,
                             ReachedBy(world.Now(), tables, key, m, 0, k.muxer))
    {
      var watchers := WatchersOf(world.muxers[m], ActionOf(key));
      var i := 0;
      while i < |watchers|
        invariant 0 <= i <= |watchers|
        invariant forall k :: AccelView(views, k) ==
                    if k.muxer == m && k.key == key && k.observer in watchers[..i]
                    then Accel(world.Now(), tables, m, key) else AccelView(old(views), k)
      {
        var k := AccelKey(watchers[i], m, key);
        var accel := GetPrimaryAccel(m, key);
        views := if accel.Some? then views[k := accel.value] else views - {k};
        assert watchers[..i + 1] == watchers[..i] + [watchers[i]];
        i := i + 1;
      }
      assert watchers[..i] == watchers;
    }

    // gtk_action_muxer_set_primary_accel: afterwards every observer below knows the accelerator a query would give.
    method SetPrimaryAccel(m: nat, key: string, accel: Option<string>)
      requires Linked(world.Now()) && ChildrenKnown(world.Now(), None)
      requires |tables| == |world.muxers| && m < |tables| && '|' in key
      requires AccelsAgree(world.Now(), tables, views)
      modifies this`tables, this`views
      ensures |tables| == |old(tables)| && AccelsAgree(world.Now(), tables, views)
      ensures
        var was := old(tables)[m];
        tables == old(tables)[m := if accel.Some? then was[key := accel.value] else was - {key}]
      ensures old(Barred(tables)) ==> Barred(tables)
    {
      ghost var f, tables0, views0 := world.Now(), tables, views;
      tables := tables[m := if accel.Some? then tables[m][key := accel.value] else tables[m] - {key}];
      PrimaryAccelChanged(m, key);
      forall k | WatchesAccel(f, k)
        ensures AccelView(views, k) == Accel(f, tables, k.muxer, k.key)
      {
        AccelUnlessReached(f, tables0, tables, m, key, k.muxer, k.key);
      }
    }

    // The keys of one table, in emit_changed_accels.
    method TellKeys(m: nat, keys: set<string>)
      requires Linked(world.Now()) && ChildrenKnown(world.Now(), None)
      requires |tables| == |world.muxers| && m < |tables| && forall key :: key in keys ==> '|' in key
      modifies this`views
      ensures forall k :: AccelView(views, k)
                == Requeried(world.Now(), tables, old(views), k.key, k,
                             k.key in keys && k.muxer < |tables| && Reached(world.Now(), tables, k.key, m, k.muxer))
    {
      ghost var f, before := world.Now(), views;
      var todo := keys;
      while todo != {}
        invariant todo <= keys
        invariant forall k :: AccelView(views, k)
                    == Requeried(f, tables, before, k.key, k,
                                 k.key in keys - todo && k.muxer < |tables| && Reached(f, tables, k.key, m, k.muxer))
        decreases todo
      {
        var key :| key in todo;
        PrimaryAccelChanged(m, key);
        todo := todo - {key};
      }
    }

    // emit_changed_accels: of all keys in the parent's table and in those above it.
    method EmitChangedAccels(m: nat, parent: Option<nat>)
      requires Linked(world.Now()) && ChildrenKnown(world.Now(), None) && Barred(tables)
      requires |tables| == |world.muxers| && m < |tables| && (parent.Some? ==> parent.value < |tables|)
      modifies this`views
      ensures AskedUp(world.Now(), tables, old(views), views, m, parent)
    {
      ghost var f, before := world.Now(), views;
      ghost var done: set<string> := {};
      var p: Option<nat> := parent;
      while p.Some?
        invariant p.Some? ==> p.value < |tables|
        invariant forall key :: UpAnswer(f, tables, parent, key).Some? <==>
                    key in done || UpAnswer(f, tables, p, key).Some?
        invariant forall k :: AccelView(views, k)
                    == Requeried(f, tables, before, k.key, k,
                                 k.key in done && k.muxer < |tables| && Reached(f, tables, k.key, m, k.muxer))
        decreases if p.Some? then world.height - world.rank[p.value] + 1 else 0
      {
        assert LinkedAt(f, p.value);
        TellKeys(m, tables[p.value].Keys);
        done := done + tables[p.value].Keys;
        p := world.muxers[p.value].parent;
      }
    }

    /**
      gtk_action_muxer_set_parent, as far as it tells of accelerators: exactly which observers know the right one
      afterwards. Those of an accelerator that only the old parent answered do not.
     */
    method SetParent(m: nat, parent: Option<nat>)
      requires world.Sound() && |tables| == |world.muxers| && m < |tables| && Barred(tables)
      requires parent.Some? ==> parent.value < |tables| && !Below(world.Now(), m, parent.value)
      requires AccelsAgree(world.Now(), tables, views)
      modifies this`views, world`muxers, world`views, world`rank, world`height
      ensures world.Sound() && |tables| == |world.muxers| && world.muxers[m].parent == parent
      ensures old(world.Valid() && (parent.Some? ==> Apart(world.Now(), m, parent.value))) ==> world.Valid()
      ensures forall k :: WatchesAccel(world.Now(), k) <==> old(WatchesAccel(world.Now(), k))
      ensures forall k :: WatchesAccel(world.Now(), k) ==>
                (AccelView(views, k) == Accel(world.Now(), tables, k.muxer, k.key) <==>
                 !old(Dropped(world.Now(), tables, m, parent, k)))
      ensures AccelsAgree(world.Now(), tables, views) <==>
                forall k :: old(WatchesAccel(world.Now(), k)) ==> !old(Dropped(world.Now(), tables, m, parent, k))
    {
      hide Wired, Disjoint, Agree, ChildrenKnown, Linked, LinkedAt, Apart, Below, Accel, Reached, Dropped, UpAnswer;
      hide AccelsAgree, WatchesAccel, Requeried, Barred, World.Sound, AfterParent, ParentSafe;
      SoundThere(m);
      ghost var f, views0 := world.Now(), views;
      if world.muxers[m].parent == parent {
        AccelsKept(f, tables, m, views);
        AgreeIff(f, f, tables, m, parent, views);
        return;
      }
      EmitChangedAccels(m, world.muxers[m].parent);
      ghost var views1 := views;
      AskedAgain(f, tables, views0, views1, m, f.muxers[m].parent);
      world.SetParent(m, parent);
      ghost var g := world.Now();
      SoundThere(m);
      EmitChangedAccels(m, parent);
      AllParentChanged(f, g, tables, m, parent, views1, views);
      AgreeIff(f, g, tables, m, parent, views);
    }

    lemma SoundThere(m: nat)
      requires world.Sound() && m < |world.muxers|
      ensures Linked(world.Now()) && LinkedAt(world.Now(), m) && ChildrenKnown(world.Now(), None)
      ensures
        var parent := world.muxers[m].parent;
        parent.Some? ==> parent.value < |world.muxers| && !Below(world.Now(), m, parent.value)
    {
      var f := world.Now();
      assert LinkedAt(f, m);
      if f.muxers[m].parent.Some? && Below(f, m, f.muxers[m].parent.value) {
        BelowRank(f, m, f.muxers[m].parent.value);
      }
    }

    // A new muxer has no accelerators and no observers.
    method NewMuxer() returns (m: nat)
      requires world.Sound() && world.Counted() && |tables| == |world.muxers|
      requires AccelsAgree(world.Now(), tables, views)
      modifies this`tables, world`muxers, world`rank, world`height
      ensures world.Sound() && world.Counted() && m == |old(tables)| && tables == old(tables) + [map[]]
      ensures (old(world.Valid()) ==> world.Valid()) && (old(Barred(tables)) ==> Barred(tables))
      ensures world.Now().muxers == old(world.Now().muxers) + [Muxer(map[], None, [], map[])]
      ensures |tables| == |world.muxers| && AccelsAgree(world.Now(), tables, views)
    {
      hide Linked, ChildrenKnown, Wired, Disjoint, Agree, Addressed, RefsMatch, TimesMatch, AccelsAgree, WatchesAccel;
      ghost var f, tables0 := world.Now(), tables;
      m := world.NewMuxer();
      NoNewWatchers(f, world.Now());
      tables := tables + [map[]];
      AccelsStill(f, world.Now(), tables0, tables, views);
    }

    // An observer is registered for an action, and asks for that action's accelerators as well.
    method RegisterObserver(m: nat, name: string, observer: nat, address: nat)
      requires world.Sound() && world.Counted() && |tables| == |world.muxers| && m < |tables|
      requires address !in world.actionAt && AccelsAgree(world.Now(), tables, views)
      modifies this`views, world`muxers, world`views, world`addresses, world`actionAt, world`weakRefs, world`registered
      ensures world.Sound() && world.Counted() && |tables| == |world.muxers|
      ensures old(world.Valid()) ==> world.Valid()
      ensures world.Now().muxers == Prepend(old(world.Now().muxers), m, name, observer)
      ensures WatchesAccelsOf(world.Now(), m, name, observer) && AccelsAgree(world.Now(), tables, views)
    {
      ghost var f, views0 := world.Now(), views;
      world.RegisterObserver(m, name, observer, address);
      AskAll(m, name, observer);
      AccelsRegistered(f, world.Now(), tables, views0, views, m, name, observer);
    }

    method AskAll(m: nat, name: string, observer: nat)
      requires Linked(world.Now()) && |tables| == |world.muxers| && m < |tables|
      modifies this`views
      ensures forall k :: AccelView(views, k) ==
                if AsksFor(k, m, name, observer) then Accel(world.Now(), tables, m, k.key)
                else AccelView(old(views), k)
    {
      views := map k | k in views && !AsksFor(k, m, name, observer) :: views[k];
      var all := set table, key | table in tables && key in table :: key;
      var keys := all;
      while keys != {}
        invariant keys <= all
        invariant forall k :: AccelView(views, k) ==
                    if AsksFor(k, m, name, observer)
                    then if k.key in all - keys then Accel(world.Now(), tables, m, k.key) else None
                    else AccelView(old(views), k)
        decreases keys
      {
        var key :| key in keys;
        var accel := GetPrimaryAccel(m, key);
        if AsksFor(AccelKey(observer, m, key), m, name, observer) && accel.Some? {
          views := views[AccelKey(observer, m, key) := accel.value];
        }
        keys := keys - {key};
      }
      forall key | key !in all
        ensures Accel(world.Now(), tables, m, key) == None
      {
        NoAccels(world.Now(), tables, m, key);
      }
    }
  }

  // A muxer with an accelerator for an action that observer 0 watches at its child.
  ghost function Pair(): Forest {
    Forest([Muxer(map[], None, [1], map[]), Muxer(map[], Some(0), [], map["x" := [0]])], [], [1, 0], 2)
  }

  lemma PairLinked()
    ensures Linked(Pair()) && LinkedAt(Pair(), 1) && ChildrenKnown(Pair(), None) && Wired(Pair()) && Disjoint(Pair())
  {
    assert LinkedAt(Pair(), 0) && LinkedAt(Pair(), 1);
  }

  // The child loses its parent, and the observer keeps the accelerator.
  lemma PairDrops()
    ensures
      var f, tables, k := Pair(), [map["|x" := "F1"], map[]], AccelKey(0, 1, "|x");
      && Linked(f) && ChildrenKnown(f, None) && Wired(f) && Disjoint(f) && Barred(tables)
      && AccelsAgree(f, tables, map[k := "F1"]) && WatchesAccel(f, k) && Dropped(f, tables, 1, None, k)
  {
    var f, tables, k := Pair(), [map["|x" := "F1"], map[]], AccelKey(0, 1, "|x");
    PairLinked();
    PairAgrees(f, tables, k);
    hide Linked, ChildrenKnown, Wired, Disjoint, AccelsAgree, WatchesAccel;
    assert UpAnswer(f, tables, Some(0), "|x") == Some("F1");
    assert Exposed(f, tables, "|x", 1, 1);
  }

  lemma PairAgrees(f: Forest, tables: seq<Table>, k: AccelKey)
    requires f == Pair() && Linked(f) && tables == [map["|x" := "F1"], map[]] && k == AccelKey(0, 1, "|x")
    ensures AccelsAgree(f, tables, map[k := "F1"]) && WatchesAccel(f, k)
  {
    ActionOfPrinted("", "x");
    assert "" + "|" + "x" == "|x";
    forall j | WatchesAccel(f, j)
      ensures AccelView(map[k := "F1"], j) == Accel(f, tables, j.muxer, j.key)
    {
      assert Accel(f, tables, 1, j.key) == Accel(f, tables, 0, j.key);
    }
  }

  predicate AsksFor(k: AccelKey, m: nat, name: string, observer: nat) {
    k.observer == observer && k.muxer == m && '|' in k.key && ActionOf(k.key) == name
  }

  ghost predicate WatchesAccelsOf(f: Forest, m: nat, name: string, observer: nat) {
    forall k :: AsksFor(k, m, name, observer) ==> WatchesAccel(f, k)
  }

  // Neither further muxers without accelerators, nor what the groups are, change what is answered.
  lemma {:induction false} AccelAlike(f: Forest, g: Forest, tables: seq<Table>, tables': seq<Table>, m: nat,
                                      key: string)
    requires Linked(f) && Linked(g) && |tables| == |f.muxers| && |tables'| == |g.muxers| && tables <= tables'
    requires forall x :: 0 <= x < |f.muxers| ==> g.muxers[x].parent == f.muxers[x].parent
    requires m < |f.muxers|
    ensures Accel(g, tables', m, key) == Accel(f, tables, m, key)
    decreases f.height - f.rank[m]
  {
    assert LinkedAt(f, m);
    if f.muxers[m].parent.Some? {
      AccelAlike(f, g, tables, tables', f.muxers[m].parent.value, key);
    }
  }

  lemma NoNewWatchers(f: Forest, g: Forest)
    requires g.muxers == f.muxers + [Muxer(map[], None, [], map[])]
    ensures forall k :: WatchesAccel(g, k) ==> WatchesAccel(f, k)
    ensures forall x :: 0 <= x < |f.muxers| ==> g.muxers[x].parent == f.muxers[x].parent
  {
  }

  /**
    Views stay right through whatever leaves the parents and the accelerators alone and brings no new observer: new
    muxers, insertion and removal of groups, changes of actions, unregistration and finalisation.
   */
  lemma AccelsStill(f: Forest, g: Forest, tables: seq<Table>, tables': seq<Table>, views: AccelViews)
    requires Linked(f) && Linked(g) && |tables| == |f.muxers| && |tables'| == |g.muxers| && tables <= tables'
    requires forall x :: 0 <= x < |f.muxers| ==> g.muxers[x].parent == f.muxers[x].parent
    requires forall k :: WatchesAccel(g, k) ==> WatchesAccel(f, k)
    requires AccelsAgree(f, tables, views)
    ensures AccelsAgree(g, tables', views)
  {
    forall k | WatchesAccel(g, k)
      ensures AccelView(views, k) == Accel(g, tables', k.muxer, k.key)
    {
      AccelAlike(f, g, tables, tables', k.muxer, k.key);
    }
  }

  lemma AccelsRegistered(f: Forest, g: Forest, tables: seq<Table>, views: AccelViews, views': AccelViews, m: nat,
                         name: string, observer: nat)
    requires Linked(f) && Linked(g) && |tables| == |f.muxers| && m < |tables| && AccelsAgree(f, tables, views)
    requires g.muxers == Prepend(f.muxers, m, name, observer)
    requires forall k :: AccelView(views', k) ==
               if AsksFor(k, m, name, observer) then Accel(g, tables, m, k.key) else AccelView(views, k)
    ensures AccelsAgree(g, tables, views') && WatchesAccelsOf(g, m, name, observer)
  {
    forall k | WatchesAccel(g, k) && !AsksFor(k, m, name, observer)
      ensures AccelView(views', k) == Accel(g, tables, k.muxer, k.key)
    {
      assert WatchesAccel(f, k);
      AccelAlike(f, g, tables, tables, k.muxer, k.key);
    }
  }

  lemma {:induction false} NoAccels(f: Forest, tables: seq<Table>, m: nat, key: string)
    requires Linked(f) && |tables| == |f.muxers| && m < |f.muxers|
    requires forall x :: 0 <= x < |tables| ==> key !in tables[x]
    ensures Accel(f, tables, m, key) == None
    decreases f.height - f.rank[m]
  {
    if f.muxers[m].parent.Some? {
      assert LinkedAt(f, m);
      NoAccels(f, tables, f.muxers[m].parent.value, key);
    }
  }
}
