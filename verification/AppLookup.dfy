/**
  Finding applications in src/shell-app-system.c: by desktop file id, and by the window class that desktop files
  declare. Both tables follow the application cache.
 */
module AppLookup {
  import opened Wrappers

  // What shell_app_system_app_info_equal compares beside the id and whether to show it.
  datatype Fields = Fields(
    filename: string,
    executable: string,
    commandline: string,
    name: string,
    description: string,
    displayName: string,
    icon: string)

  datatype Info = Info(id: string, wmClass: Option<string>, shown: bool, fields: Fields)

  // shell_app_system_app_info_equal
  predicate InfoEqual(one: Info, two: Info) {
    one.id == two.id && one.shown == two.shown && one.fields == two.fields
  }

  // startup_wm_class_is_exact_match
  predicate ExactMatch(id: string, wmClass: string) {
    wmClass <= id && (|id| == |wmClass| || id[|wmClass|..] == ".desktop")
  }

  lemma ExactMatchMeans(id: string, wmClass: string)
    ensures ExactMatch(id, wmClass) <==> id == wmClass || id == wmClass + ".desktop"
  {
    if wmClass <= id {
      assert id == wmClass + id[|wmClass|..];
    }
  }

  // ---------- which desktop file a class stands for ----------

  // The desktop files that declare the class, in order.
  function Declarers(all: seq<Info>, wmClass: string): (r: seq<Info>)
    ensures forall e :: e in r ==> e in all && e.wmClass == Some(wmClass)
  {
    if all == [] then []
    else
      var last := all[|all| - 1];
      Declarers(all[..|all| - 1], wmClass) + if last.wmClass == Some(wmClass) then [last] else []
  }

  function LastExact(ds: seq<Info>, wmClass: string): (r: Option<nat>)
    ensures r.Some? ==> r.value < |ds| && ExactMatch(ds[r.value].id, wmClass)
    ensures r.Some? ==> forall i :: r.value < i < |ds| ==> !ExactMatch(ds[i].id, wmClass)
    ensures r.None? ==> forall i :: 0 <= i < |ds| ==> !ExactMatch(ds[i].id, wmClass)
  {
    if ds == [] then None
    else if ExactMatch(ds[|ds| - 1].id, wmClass) then Some(|ds| - 1)
    else LastExact(ds[..|ds| - 1], wmClass)
  }

  // The first one shown, from index `from` on.
  function FirstShown(ds: seq<Info>, from: nat): (r: Option<nat>)
    requires from <= |ds|
    ensures r.Some? ==> from <= r.value < |ds| && ds[r.value].shown && forall i :: from <= i < r.value ==> !ds[i].shown
    ensures r.None? ==> forall i :: from <= i < |ds| ==> !ds[i].shown
    decreases |ds| - from
  {
    if from == |ds| then None else if ds[from].shown then Some(from) else FirstShown(ds, from + 1)
  }

  // The one a class stands for: from the last exact match on, or from the start if there is none, the first one shown,
  // but an exact match that is shown before all; and if none is shown the one it would have started from.
  function Winner(ds: seq<Info>, wmClass: string): (r: nat)
    requires ds != []
    ensures r < |ds|
  {
    var exact := LastExact(ds, wmClass);
    var from := if exact.Some? then exact.value else 0;
    var shown := FirstShown(ds, from);
    if shown.Some? then shown.value else from
  }

  // Adding a declarer: it wins if it is an exact match, or if it is shown and what won before is not.
  lemma WinnerStep(ds: seq<Info>, e: Info, wmClass: string)
    requires ds != []
    ensures Winner(ds + [e], wmClass)
            == if ExactMatch(e.id, wmClass) || (e.shown && !ds[Winner(ds, wmClass)].shown) then |ds|
               else Winner(ds, wmClass)
  {
    var more := ds + [e];
    assert more[..|ds|] == ds;
    var exact := LastExact(ds, wmClass);
    var from := if exact.Some? then exact.value else 0;
    if ExactMatch(e.id, wmClass) {
      assert LastExact(more, wmClass) == Some(|ds|);
    } else {
      assert LastExact(more, wmClass) == exact;
      var shown, shown' := FirstShown(ds, from), FirstShown(more, from);
      if shown.Some? {
        assert more[shown.value] == ds[shown.value];
        assert shown'.Some? && shown'.value <= shown.value;
      } else if shown'.Some? {
        assert shown'.value == |ds|;
      }
    }
  }

  ghost predicate OnlyExactMatch(ds: seq<Info>, wmClass: string, k: nat) {
    forall i :: 0 <= i < |ds| ==> (ExactMatch(ds[i].id, wmClass) <==> i == k)
  }

  /**
    What the order of preference comes to. A shown match wins if no other declarer matches exactly; without an exact
    match the first one shown wins, or else the first.
   */
  lemma WinnerMeans(ds: seq<Info>, wmClass: string, k: nat)
    requires k < |ds|
    ensures ds[k].shown && OnlyExactMatch(ds, wmClass, k) ==> Winner(ds, wmClass) == k
    ensures (forall i :: 0 <= i < |ds| ==> !ExactMatch(ds[i].id, wmClass)) ==>
              && (ds[k].shown && (forall i :: 0 <= i < k ==> !ds[i].shown) ==> Winner(ds, wmClass) == k)
              && ((forall i :: 0 <= i < |ds| ==> !ds[i].shown) ==> Winner(ds, wmClass) == 0)
  {
  }

  /**
    Exactly which declarer wins: the search starts from the last exact match, or from the first declarer if there is
    none; the first one shown from there on wins, or the one it started from if none is.
   */
  lemma WinnerExactly(ds: seq<Info>, wmClass: string, k: nat)
    requires k < |ds|
    ensures Winner(ds, wmClass) == k <==> exists from: nat ::
              && from <= k && Starts(ds, wmClass, from)
              && (forall i :: from <= i < k ==> !ds[i].shown)
              && (ds[k].shown || (k == from && forall i :: from <= i < |ds| ==> !ds[i].shown))
  {
    var exact := LastExact(ds, wmClass);
    var from: nat := if exact.Some? then exact.value else 0;
    assert Starts(ds, wmClass, from);
    forall other: nat | other <= k && Starts(ds, wmClass, other)
      ensures other == from
    {
    }
  }

  // The last exact match, or the first declarer if there is none.
  ghost predicate Starts(ds: seq<Info>, wmClass: string, from: nat) {
    && from < |ds| && (forall i :: from < i < |ds| ==> !ExactMatch(ds[i].id, wmClass))
    && (ExactMatch(ds[from].id, wmClass) || from == 0)
  }

  /**
    Exactly when a declarer that should be shown wins: there is one that no exact match comes after. So one that should
    not be shown wins over shown ones exactly when every shown one has an exact match after it.
   */
  lemma ShownWinsExactly(ds: seq<Info>, wmClass: string)
    requires ds != []
    ensures ds[Winner(ds, wmClass)].shown <==>
            exists i :: 0 <= i < |ds| && ds[i].shown && forall j :: i < j < |ds| ==> !ExactMatch(ds[j].id, wmClass)
  {
    var exact := LastExact(ds, wmClass);
    var from := if exact.Some? then exact.value else 0;
    var shown := FirstShown(ds, from);
    if shown.Some? {
      assert ds[shown.value].shown;
    }
  }

  // Two desktop files with which it does, in either order.
  lemma HiddenMatchDisplaces(shown: Info, hidden: Info)
    requires shown.shown && shown.id == "b.desktop" && shown.wmClass == Some("a")
    requires !hidden.shown && hidden.id == "a.desktop" && hidden.wmClass == Some("a")
    ensures Winner([shown, hidden], "a") == 1 && Winner([hidden, shown], "a") == 1
  {
    ExactMatchMeans("b.desktop", "a");
    ExactMatchMeans("a.desktop", "a");
  }

  ghost predicate IdsDistinct(all: seq<Info>) {
    forall i, j :: 0 <= i < j < |all| ==> all[i].id != all[j].id
  }

  // The table holds exactly the declared classes, each with the id of its winner.
  ghost predicate Scanned(table: map<string, string>, all: seq<Info>) {
    forall c :: Stands(if c in table then Some(table[c]) else None, Declarers(all, c), c)
  }

  ghost predicate Stands(id: Option<string>, ds: seq<Info>, wmClass: string) {
    id == if ds == [] then None else Some(ds[Winner(ds, wmClass)].id)
  }

  ghost predicate Hidden(noShow: seq<string>, all: seq<Info>) {
    forall id :: id in noShow <==> exists e :: e in all && e.id == id && e.wmClass.Some? && !e.shown
  }

  lemma HiddenStep(noShow: seq<string>, all: seq<Info>, i: nat)
    requires i < |all| && Hidden(noShow, all[..i])
    ensures Hidden(if all[i].wmClass.Some? && !all[i].shown then noShow + [all[i].id] else noShow, all[..i + 1])
  {
    var noShow' := if all[i].wmClass.Some? && !all[i].shown then noShow + [all[i].id] else noShow;
    assert all[..i + 1] == all[..i] + [all[i]];
    forall id
      ensures id in noShow' <==> exists e :: e in all[..i + 1] && e.id == id && e.wmClass.Some? && !e.shown
    {
      if id in noShow {
        var e :| e in all[..i] && e.id == id && e.wmClass.Some? && !e.shown;
        assert e in all[..i + 1];
      }
      if e :| e in all[..i + 1] && e.id == id && e.wmClass.Some? && !e.shown {
        if e in all[..i] {
          assert id in noShow;
        }
      }
    }
  }

  // With distinct ids, whether a declarer is hidden can be told by its id.
  lemma HiddenById(noShow: seq<string>, all: seq<Info>, e: Info)
    requires IdsDistinct(all) && Hidden(noShow, all) && e in all && e.wmClass.Some?
    ensures e.id in noShow <==> !e.shown
  {
    if e.id in noShow {
      var f :| f in all && f.id == e.id && f.wmClass.Some? && !f.shown;
      var i :| 0 <= i < |all| && all[i] == e;
      var j :| 0 <= j < |all| && all[j] == f;
    }
  }

  lemma DeclarersStep(all: seq<Info>, i: nat, c: string)
    requires i < |all|
    ensures Declarers(all[..i + 1], c)
            == Declarers(all[..i], c) + if all[i].wmClass == Some(c) then [all[i]] else []
  {
    assert all[..i + 1][..i] == all[..i];
  }

  class AppTables {
    // shell_app_cache_get_all
    var cache: seq<Info>
    var startupWmClassToId: map<string, string>
    var idToApp: map<string, Info>

    // Every application known by its id is in the cache, with equal information.
    ghost predicate Valid()
      reads this
    {
      && (IdsDistinct(cache) ==> Scanned(startupWmClassToId, cache))
      && forall id :: id in idToApp ==>
           idToApp[id].id == id && GetInfo(cache, id).Some? && InfoEqual(idToApp[id], GetInfo(cache, id).value)
    }

    // shell_app_system_init
    constructor (cache: seq<Info>)
      ensures Valid() && this.cache == cache
    {
      this.cache := cache;
      startupWmClassToId, idToApp := map[], map[];
      new;
      InstalledChanged();
    }

    // scan_startup_wm_class_to_id
    method ScanStartupWmClassToId()
      modifies this`startupWmClassToId
      ensures IdsDistinct(cache) ==> Scanned(startupWmClassToId, cache)
    {
      startupWmClassToId := map[];
      var noShowIds: seq<string> := [];
      var i := 0;
      while i < |cache|
        invariant 0 <= i <= |cache|
        invariant IdsDistinct(cache) ==> Scanned(startupWmClassToId, cache[..i])
        invariant Hidden(noShowIds, cache[..i])
      {
        var info := cache[i];
        ghost var table0 := startupWmClassToId;
        HiddenStep(noShowIds, cache, i);
        if info.wmClass.Some? {
          var wmClass := info.wmClass.value;
          if !info.shown {
            noShowIds := noShowIds + [info.id];
          }
          var oldId := if wmClass in startupWmClassToId then Some(startupWmClassToId[wmClass]) else None;
          if oldId.Some? && ExactMatch(info.id, wmClass) {
            oldId := None;
          }
          if oldId.Some? && info.shown && oldId.value in noShowIds {
            oldId := None;
          }
          if oldId == None {
            startupWmClassToId := startupWmClassToId[wmClass := info.id];
          }
        }
        if IdsDistinct(cache) {
          ScanStep(table0, startupWmClassToId, cache, i, noShowIds);
        }
        i := i + 1;
      }
      assert cache[..i] == cache;
    }

    // installed_changed, as far as the tables go: applications whose information changed or went are forgotten.
    method InstalledChanged()
      modifies this`startupWmClassToId, this`idToApp
      requires forall id :: id in idToApp ==> idToApp[id].id == id
      ensures Valid()
      ensures forall id :: id in idToApp <==>
                id in old(idToApp) && GetInfo(cache, id).Some? && InfoEqual(old(idToApp)[id], GetInfo(cache, id).value)
      ensures forall id :: id in idToApp ==> idToApp[id] == old(idToApp)[id]
    {
      ScanStartupWmClassToId();
      idToApp := map id | id in idToApp && !IsStale(cache, idToApp[id]) :: idToApp[id];
    }

    // The cache's "changed" signal.
    method CacheChanged(to: seq<Info>)
      requires Valid()
      modifies this
      ensures Valid() && cache == to
    {
      cache := to;
      InstalledChanged();
    }

    // shell_app_system_lookup_app
    method LookupApp(id: string) returns (app: Option<Info>)
      requires Valid()
      modifies this`idToApp
      ensures Valid() && (id in old(idToApp) ==> app == Some(old(idToApp)[id]))
      ensures app.Some? <==> exists e :: e in cache && e.id == id
      ensures app.Some? ==>
                app.value.id == id && GetInfo(cache, id).Some? && InfoEqual(app.value, GetInfo(cache, id).value)
      ensures app.Some? ==> id in idToApp && idToApp[id] == app.value
    {
      GetInfoFinds(cache, id);
      if id in idToApp {
        return Some(idToApp[id]);
      }
      var info := GetInfo(cache, id);
      if info == None {
        return None;
      }
      idToApp := idToApp[id := info.value];
      return info;
    }

    // shell_app_system_lookup_startup_wmclass
    method LookupStartupWmclass(wmClass: string) returns (app: Option<Info>)
      requires Valid() && IdsDistinct(cache)
      modifies this`idToApp
      ensures Valid()
      ensures
        var ds := Declarers(cache, wmClass);
        && (app.Some? <==> ds != [])
        && (app.Some? ==> InfoEqual(app.value, ds[Winner(ds, wmClass)]))
    {
      if wmClass !in startupWmClassToId {
        return None;
      }
      ghost var ds := Declarers(cache, wmClass);
      ghost var e := ds[Winner(ds, wmClass)];
      assert e in ds && e in cache;
      OnlyOne(cache, e);
      app := LookupApp(startupWmClassToId[wmClass]);
    }
  }

  // shell_app_cache_get_info
  function GetInfo(all: seq<Info>, id: string): (r: Option<Info>)
    ensures r.Some? ==> r.value.id == id && r.value in all
  {
    if all == [] then None else if all[0].id == id then Some(all[0]) else GetInfo(all[1..], id)
  }

  lemma {:induction false} GetInfoFinds(all: seq<Info>, id: string)
    ensures GetInfo(all, id).Some? <==> exists e :: e in all && e.id == id
  {
    if all != [] {
      GetInfoFinds(all[1..], id);
      assert all == [all[0]] + all[1..];
      if GetInfo(all[1..], id).Some? {
        assert GetInfo(all[1..], id).value in all;
      }
    }
  }

  lemma OnlyOne(all: seq<Info>, e: Info)
    requires IdsDistinct(all) && e in all
    ensures GetInfo(all, e.id) == Some(e)
  {
    GetInfoFinds(all, e.id);
    var f := GetInfo(all, e.id).value;
    var i :| 0 <= i < |all| && all[i] == e;
    var j :| 0 <= j < |all| && all[j] == f;
  }

  // app_is_stale, of an application with a desktop file.
  predicate IsStale(cache: seq<Info>, known: Info) {
    var info := GetInfo(cache, known.id);
    info.None? || !InfoEqual(known, info.value)
  }

  lemma ScanStep(table: map<string, string>, table': map<string, string>, all: seq<Info>, i: nat, noShow: seq<string>)
    requires i < |all| && IdsDistinct(all) && Scanned(table, all[..i]) && Hidden(noShow, all[..i + 1])
    requires
      var e := all[i];
      if e.wmClass.None? then table' == table
      else
        var c := e.wmClass.value;
        if c in table && !ExactMatch(e.id, c) && !(e.shown && table[c] in noShow) then table' == table
        else table' == table[c := e.id]
    ensures Scanned(table', all[..i + 1])
  {
    hide ExactMatch, Winner, Hidden, Declarers;
    forall c
      ensures Stands(if c in table' then Some(table'[c]) else None, Declarers(all[..i + 1], c), c)
    {
      assert Stands(if c in table then Some(table[c]) else None, Declarers(all[..i], c), c);
      DeclarersStep(all, i, c);
      var ds := Declarers(all[..i], c);
      if all[i].wmClass == Some(c) {
        if c in table {
          WinnerHidden(all, i, noShow, c);
          WinnerStep(ds, all[i], c);
          assert (ds + [all[i]])[Winner(ds, c)] == ds[Winner(ds, c)];
        } else {
          assert ds + [all[i]] == [all[i]] && Winner([all[i]], c) == 0;
        }
      } else {
        assert Declarers(all[..i + 1], c) == ds;
      }
    }
  }

  // Whether what won so far is hidden can be told by its id.
  lemma WinnerHidden(all: seq<Info>, i: nat, noShow: seq<string>, c: string)
    requires i < |all| && IdsDistinct(all) && Hidden(noShow, all[..i + 1]) && Declarers(all[..i], c) != []
    ensures
      var ds := Declarers(all[..i], c);
      var w := ds[Winner(ds, c)];
      w.id in noShow <==> !w.shown
  {
    var ds := Declarers(all[..i], c);
    var w := ds[Winner(ds, c)];
    assert w in ds && w in all[..i];
    assert w in all[..i + 1];
    HiddenById(noShow, all[..i + 1], w);
  }
}
