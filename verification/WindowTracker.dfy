/**
  src/shell-window-tracker.c: which application each window belongs to, kept in step with the applications' own window
  lists over every order of events.
 */
module WindowTracker {
  import opened Wrappers
  import opened Sequences
  import opened WindowOrder
  import opened Apps

  class Tracker {
    const display: Display
    const system: AppSystem
    var windowToApp: map<nat, App>
    var focusApp: Option<App>
    // The application objects that are alive.
    var apps: set<App>
    // Applications with a list that a change to one of its windows put out of order, and that was not sorted since.
    ghost var disturbed: set<App>
    // No two applications ever had the same desktop file id.
    ghost var distinct: bool

    ghost predicate AppsValid()
      reads this, display, system, apps
    {
      && display.Valid() && system.InStep(apps, distinct)
      && (forall a :: a in apps ==> Sound(display.windows, a.state, a.running))
      && (forall a :: a in apps && a !in disturbed ==> InOrder(display.windows, display.active, a.running))
      && (focusApp.Some? ==> focusApp.value in apps)
    }

    ghost predicate Mapped()
      reads this, apps
    {
      forall w :: w in windowToApp ==> windowToApp[w] in apps && w in WindowsOf(windowToApp[w].running)
    }

    ghost predicate Valid()
      reads this, display, system, apps
    {
      AppsValid() && Mapped()
    }

    // The applications with a list the window would be out of place in.
    ghost function MisplacedAs(w: nat, moved: Window): set<App>
      reads this, display, apps
    {
      set a | a in apps && Misplaced(display.windows, display.active, a.running, w, moved)
    }

    /**
      Whether adding the window to `app` puts the list of `a` out of order: `app` was started on a workspace, the window
      can be moved there and is new to it, and where `a` lists it, it would not fit any more.
     */
    ghost predicate Upsets(app: App, w: nat, a: App)
      requires w < |display.windows|
      reads this, display, app, a
    {
      var window := display.windows[w];
      && app.startedOnWorkspace >= 0 && !window.onAllWorkspaces && w !in WindowsOf(app.running)
      && Misplaced(display.windows, display.active, a.running, w, window.(workspace := app.startedOnWorkspace))
    }

    // The applications it has go out of order for.
    ghost function UpsetBy(app: App, w: nat): set<App>
      requires w < |display.windows|
      reads this, display, app, apps
    {
      set a | a in apps && Upsets(app, w, a)
    }

    // The same when `former` has given the window up first.
    ghost function UpsetInTurn(former: App, app: App, w: nat): set<App>
      requires w < |display.windows|
      reads this, display, app, apps
    {
      var window := display.windows[w];
      set a | a in apps && a != former && app.startedOnWorkspace >= 0 && !window.onAllWorkspaces
              && (app == former || w !in WindowsOf(app.running))
              && Misplaced(display.windows, display.active, a.running, w,
                           window.(workspace := app.startedOnWorkspace))
    }

    constructor (active: int)
      ensures Valid() && apps == {} && windowToApp == map[] && fresh(display) && fresh(system)
      ensures display.windows == [] && display.depth == [] && display.active == active
      ensures distinct && disturbed == {} && focusApp == None
    {
      display := new Display(active);
      system := new AppSystem();
      windowToApp, focusApp, apps, disturbed, distinct := map[], None, {}, {}, true;
      new;
      hide *;
      NoneTracked();
    }

    lemma NoneTracked()
      requires apps == {} && windowToApp == map[] && focusApp == None && distinct
      requires display.Valid() && system.InStep({}, true)
      ensures Valid()
    {
      hide Display.Valid, AppSystem.InStep, Sound, InOrder;
    }

    // A tracked window is exactly once in its application's list, and the application has a running state.
    lemma TrackedOnce(w: nat)
      requires Valid() && w in windowToApp
      ensures windowToApp[w].running.Some? && multiset(windowToApp[w].running.value.windows)[w] == 1
    {
      var a := windowToApp[w];
      DistinctMultiset(WindowsOf(a.running));
      assert w in multiset(WindowsOf(a.running));
      assert Sound(display.windows, a.state, a.running);
    }

    // The running set and the timers, in every valid state.
    lemma RunningInStep(a: App)
      requires Valid() && a in apps
      ensures a in system.runningApps <==> a.state == RUNNING
      ensures a.state == RUNNING ==> |WindowsOf(a.running)| >= 1
      ensures a.state == STOPPED ==> Interesting(display.windows, WindowsOf(a.running)) == 0
      ensures a.running.Some? ==> a.running.value.interesting == Interesting(display.windows, a.running.value.windows)
      ensures distinct && a.id.Some? ==> (a.id.value in system.timers <==> a.state == RUNNING)
    {
      assert Sound(display.windows, a.state, a.running);
      if distinct && a.id.Some? && a.id.value in system.timers {
        var b :| b in system.runningApps && b.id.Some? && b.id.value == a.id.value;
        assert b in apps;
      }
    }

    // ---------- which application ----------

    method NewApp(id: Option<string>) returns (app: App)
      requires Valid()
      modifies this`apps, this`distinct
      ensures app.startedOnWorkspace < 0
      ensures Valid() && fresh(app) && apps == old(apps) + {app}
      ensures app.id == id && app.state == STOPPED && app.running == None
      ensures distinct <==> old(distinct) && forall a :: a in old(apps) && a.id.Some? ==> a.id != id
    {
      app := new App(id);
      distinct := distinct && forall a :: a in apps && a.id.Some? ==> a.id != app.id;
      apps := apps + {app};
    }

    lemma ChainsThere()
      requires Valid()
      ensures ChainsEnd(display.windows, display.depth)
    {
    }

    /**
      Which of the applications there are a window goes to, with this map: that of the root of its transient chain,
      else `pick`, what the root's class, ids, process, startup sequence or group say; none if it gets a new one.
     */
    ghost function OwnerIn(windowToApp: map<nat, App>, w: nat, pick: Option<App>): Option<App>
      requires ChainsEnd(display.windows, display.depth) && w < |display.windows|
      reads display
    {
      var root := RootOf(display.windows, display.depth, w);
      var window := display.windows[root];
      if (window.normal || window.remote) && root in windowToApp then Some(windowToApp[root])
      else if pick.Some? && !window.remote then pick
      else None
    }

    // Where a tracked window goes when it is given up and tracked again.
    ghost function NextOwner(w: nat, pick: Option<App>): Option<App>
      requires Valid() && w < |display.windows|
      reads this, display, system, apps
    {
      OwnerIn(windowToApp - {w}, w, pick)
    }

    // The end of its chain of transient parents.
    ghost function Root(w: nat): nat
      requires Valid() && w < |display.windows|
      reads this, display, system, apps
    {
      RootOf(display.windows, display.depth, w)
    }

    lemma OwnerAlive(w: nat, pick: Option<App>)
      requires Valid() && w < |display.windows| && (pick.Some? ==> pick.value in apps)
      ensures ChainsEnd(display.windows, display.depth) && Root(w) == RootOf(display.windows, display.depth, w)
      ensures NextOwner(w, pick) == OwnerIn(windowToApp - {w}, w, pick)
      ensures NextOwner(w, pick).Some? ==> NextOwner(w, pick).value in apps
    {
      hide AppsValid, RootOf;
      ChainsThere();
    }

    // What the last resort of get_app_for_window makes: _shell_app_new_for_window.
    method NewForWindow(w: nat) returns (app: App)
      requires Valid() && w < |display.windows|
      modifies this`apps, this`disturbed, this`distinct, system, display`windows
      ensures app.startedOnWorkspace < 0 && disturbed == old(disturbed) && display.windows == old(display.windows)
      ensures app.running.Some? && app.running.value.stale && distinct == old(distinct)
      ensures Valid() && fresh(app) && apps == old(apps) + {app} && w in WindowsOf(app.running)
      ensures WindowsOf(app.running) == [w]
    {
      app := NewApp(None);
      AddTo(app, w);
    }

    /**
      get_app_for_window: a transient window belongs to its parent's application. With a transient parent a new
      application holds the parent, not the window.
     */
    method GetAppForWindow(w: nat, pick: Option<App>) returns (app: App)
      requires Valid() && w < |display.windows| && (pick.Some? ==> pick.value in apps)
      modifies this`apps, this`disturbed, this`distinct, system, display`windows
      ensures (app in old(apps) || app.startedOnWorkspace < 0) && disturbed == old(disturbed)
      ensures distinct == old(distinct)
      ensures Valid() && app in apps && fresh(apps - old(apps))
      ensures apps == if app in old(apps) then old(apps) else old(apps) + {app}
      ensures display.windows == old(display.windows)
      ensures
        var owner := old(OwnerIn(windowToApp, w, pick));
        && (owner.Some? ==> app == owner.value)
        && (owner.None? ==>
              var root := RootOf(old(display.windows), old(display.depth), w);
              app !in old(apps) && WindowsOf(app.running) == [root] && app.running.value.stale)
      decreases display.depth[w]
    {
      var window := display.windows[w];
      if window.transientFor.Some? {
        app := GetAppForWindow(window.transientFor.value, pick);
        return;
      }
      if (window.normal || window.remote) && w in windowToApp {
        return windowToApp[w];
      }
      if pick.Some? && !window.remote {
        return pick.value;
      }
      app := NewForWindow(w);
    }

    // _shell_app_add_window, as seen by all applications.
    method AddTo(app: App, w: nat)
      requires AppsValid() && app in apps && w < |display.windows|
      modifies this`disturbed, app, system, display`windows
      ensures old(app.startedOnWorkspace) < 0 ==> app.startedOnWorkspace < 0
      ensures AppsValid() && w in WindowsOf(app.running)
      ensures forall x :: x in WindowsOf(old(app.running)) ==> x in WindowsOf(app.running)
      ensures |display.windows| == |old(display.windows)|
      ensures forall i :: 0 <= i < |display.windows| ==> SameBut(display.windows[i], old(display.windows)[i])
      ensures WindowsOf(app.running) == WithWindow(WindowsOf(old(app.running)), w)
      ensures app.running.Some? && (w !in WindowsOf(old(app.running)) ==> app.running.value.stale)
      ensures old(app.running).Some? && old(app.running).value.stale ==> app.running.value.stale
      ensures display.windows == Placed(old(display.windows), w, if w in WindowsOf(old(app.running)) then -1
                                                                 else old(app.startedOnWorkspace))
      ensures disturbed == old(disturbed + UpsetBy(app, w))
      ensures forall a :: a in apps - old(disturbed) ==>
                (InOrder(display.windows, display.active, a.running) <==> a !in disturbed)
    {
      hide Sound, InOrder, Known, Sorted, AllClose, Distinct, RemoveFirst, AppSystem.InStep, ChainsEnd, SameBut;
      hide Misplaced;
      ghost var table, running := display.windows, app.running;
      ghost var upset := UpsetBy(app, w);
      NotItself(table, display.active, running, w, table[w].(workspace := app.startedOnWorkspace));
      app.AddWindow(w, display, system, apps, distinct);
      Rewritten(table, display.windows, display.depth, w);
      disturbed := disturbed + upset;
      forall a | a in apps && a != app
        ensures Sound(display.windows, a.state, a.running)
      {
        SoundIn(table, display.windows, a.state, a.running);
      }
      forall a | a in apps && a !in disturbed
        ensures InOrder(display.windows, display.active, a.running)
      {
        if a == app && w !in WindowsOf(running) {
          StaleInOrder(display.windows, display.active, a.running);
        } else if display.windows != table {
          MisplacedExact(table, display.windows, display.active, a.state, a.running, w);
        }
      }
      forall a | a in upset && a !in old(disturbed)
        ensures !InOrder(display.windows, display.active, a.running)
      {
        MisplacedExact(table, display.windows, display.active, a.state, a.running, w);
      }
    }

    // track_window, for a window that is not tracked.
    method TrackWindow(w: nat, pick: Option<App>)
      requires Valid() && w < |display.windows| && w !in windowToApp && (pick.Some? ==> pick.value in apps)
      modifies this`apps, this`disturbed, this`distinct, this`windowToApp, system, display`windows, apps
      ensures Valid() && old(apps) <= apps && fresh(apps - old(apps)) && |display.windows| == |old(display.windows)|
      ensures distinct == old(distinct)
      ensures w in windowToApp && windowToApp == old(windowToApp)[w := windowToApp[w]]
      ensures
        var app := windowToApp[w];
        && (forall a :: a in old(apps) && a != app ==> a.running == old(a.running) && a.state == old(a.state))
        && app.running.Some?
        && if app in old(apps) then
             && WindowsOf(app.running) == WithWindow(old(WindowsOf(app.running)), w)
             && display.windows == Placed(old(display.windows), w, if w in old(WindowsOf(app.running)) then -1
                                                                   else old(app.startedOnWorkspace))
           else
             && WindowsOf(app.running) == WithWindow([RootOf(old(display.windows), old(display.depth), w)], w)
             && app.running.value.stale && display.windows == old(display.windows)
      ensures
        var owner := old(OwnerIn(windowToApp, w, pick));
        && (owner.Some? ==> windowToApp[w] == owner.value && disturbed == old(disturbed + UpsetBy(owner.value, w)))
        && (owner.None? ==> windowToApp[w] !in old(apps) && disturbed == old(disturbed))
      ensures forall a :: a in apps - old(disturbed) ==>
                (InOrder(display.windows, display.active, a.running) <==> a !in disturbed)
    {
      hide Sound, InOrder, AppSystem.InStep, Display.Valid, Tracker.AppsValid, Tracker.Mapped, ChainsEnd, RootOf;
      var app := GetAppForWindow(w, pick);
      JoinApp(w, app);
    }

    // The window is put down for the application, and then added to it.
    method JoinApp(w: nat, app: App)
      requires Valid() && w < |display.windows| && w !in windowToApp && app in apps
      modifies this`disturbed, this`windowToApp, app, system, display`windows
      ensures disturbed == old(disturbed + UpsetBy(app, w))
      ensures forall a :: a in apps - old(disturbed) ==>
                (InOrder(display.windows, display.active, a.running) <==> a !in disturbed)
      ensures Valid() && |display.windows| == |old(display.windows)| && windowToApp == old(windowToApp)[w := app]
      ensures WindowsOf(app.running) == WithWindow(WindowsOf(old(app.running)), w)
      ensures app.running.Some? && (w !in WindowsOf(old(app.running)) ==> app.running.value.stale)
      ensures old(app.running).Some? && old(app.running).value.stale ==> app.running.value.stale
      ensures display.windows == Placed(old(display.windows), w, if w in WindowsOf(old(app.running)) then -1
                                                                 else old(app.startedOnWorkspace))
    {
      hide Sound, InOrder, Known, Sorted, AllClose, Distinct, RemoveFirst, AppSystem.InStep, Display.Valid, SameBut;
      windowToApp := windowToApp[w := app];
      AddTo(app, w);
    }

    // disassociate_window
    method DisassociateWindow(w: nat)
      requires Valid()
      modifies this`windowToApp, system, apps
      ensures forall a :: a in apps ==> a.startedOnWorkspace == old(a.startedOnWorkspace)
      ensures Valid() && windowToApp == old(windowToApp) - {w}
      ensures forall a :: a in apps && !(w in old(windowToApp) && old(windowToApp)[w] == a) ==>
                a.running == old(a.running) && a.state == old(a.state)
      ensures w in old(windowToApp) ==>
                && WindowsOf(old(windowToApp)[w].running) == RemoveFirst(old(WindowsOf(windowToApp[w].running)), w)
                && w !in WindowsOf(old(windowToApp)[w].running)
    {
      hide Sound, InOrder, Known, Sorted, AllClose, Distinct, RemoveFirst, AppSystem.InStep, Display.Valid;
      if w !in windowToApp {
        return;
      }
      var app := windowToApp[w];
      SoundMeans(display.windows, app.state, app.running);
      windowToApp := windowToApp - {w};
      ghost var state, running := app.state, app.running;
      app.RemoveWindow(w, display, system, apps, distinct);
      RemovedInOrder(display.windows, display.active, state, running, app.running, w);
      RemoveFirstDistinct(running.value.windows, w);
      forall a | a in apps
        ensures forall x :: x != w && x in old(WindowsOf(a.running)) ==> x in WindowsOf(a.running)
      {
      }
    }

    // The application of the first window in the taskbar, from the focused one up its transient parents.
    ghost function InFocus(): Option<App>
      requires display.Valid()
      reads this, display
    {
      var w := InTaskbar(display, display.focus);
      if w.Some? && w.value in windowToApp then Some(windowToApp[w.value]) else None
    }

    // The loop of update_focus_app.
    method FirstInTaskbar() returns (w: Option<nat>)
      requires display.Valid()
      ensures w == InTaskbar(display, display.focus) && (w.Some? ==> w.value < |display.windows|)
    {
      hide AllClose;
      w := display.focus;
      while w.Some? && display.windows[w.value].skipTaskbar
        invariant w.Some? ==> w.value < |display.windows|
        invariant InTaskbar(display, w) == InTaskbar(display, display.focus)
        decreases if w.Some? then display.depth[w.value] + 1 else 0
      {
        w := display.windows[w.value].transientFor;
      }
    }

    /**
      update_focus_app: the focused window or the first of its transient parents that shows in the taskbar decides.
      The application it belongs to has a running state, which is what updating its actions needs.
     */
    method UpdateFocusApp()
      requires Valid()
      modifies this`focusApp, apps`running
      ensures Valid() && focusApp == InFocus()
      ensures focusApp == None ==> forall a :: a in apps ==> a.running == old(a.running)
      ensures forall a :: a in apps ==>
                && WindowsOf(a.running) == old(WindowsOf(a.running)) && a.state == old(a.state)
                && (InOrder(display.windows, display.active, a.running) <==>
                    old(InOrder(display.windows, display.active, a.running)))
    {
      hide Sound, InOrder, AppSystem.InStep, Display.Valid, InTaskbar;
      var w := FirstInTaskbar();
      if w.Some? && w.value in windowToApp {
        UpdateActionsOf(windowToApp[w.value], w.value);
        focusApp := Some(windowToApp[w.value]);
      } else {
        focusApp := None;
      }
    }

    // shell_app_update_window_actions, as seen by all applications.
    method UpdateActionsOf(app: App, w: nat)
      requires Valid() && app in apps && w < |display.windows| && w in WindowsOf(app.running)
      modifies app`running
      ensures Valid() && WindowsOf(app.running) == old(WindowsOf(app.running))
      ensures InOrder(display.windows, display.active, app.running) <==>
                old(InOrder(display.windows, display.active, app.running))
    {
      hide Sound, InOrder, AppSystem.InStep, Display.Valid;
      ghost var running := app.running;
      app.UpdateActions(w, display);
      SameList(display.windows, display.active, app.state, running, app.running);
      SameList(display.windows, display.active, app.state, app.running, running);
    }

    // ---------- events ----------

    // A window comes to be; its user time is within 2^31 of the others'.
    method WindowAppears(window: Window) returns (w: nat)
      requires Valid() && window.transientFor == None
      requires forall i :: 0 <= i < |display.windows| ==>
                 TimesClose(window, display.windows[i]) && TimesClose(display.windows[i], window)
      modifies display`windows, display`depth
      ensures Valid() && w == |old(display.windows)| && display.windows == old(display.windows) + [window]
      ensures display.depth == old(display.depth) + [0]
    {
      w := |display.windows|;
      ghost var table := display.windows;
      display.windows := display.windows + [window];
      display.depth := display.depth + [0];
      forall a | a in apps
        ensures Sound(display.windows, a.state, a.running)
        ensures InOrder(table, display.active, a.running) ==> InOrder(display.windows, display.active, a.running)
      {
        SoundIn(table, display.windows, a.state, a.running);
      }
    }

    /**
      A window's other properties change; the new transient parents end as well. Nothing marks a list when a window goes
      to another workspace, or is shown or hidden.
     */
    method PropertiesChanged(w: nat, window: Window, ghost depth: seq<nat>)
      requires Valid() && w < |display.windows| && ChainsEnd(display.windows[w := window], depth)
      requires window.skipTaskbar == display.windows[w].skipTaskbar && window.userTime == display.windows[w].userTime
      modifies display`windows, display`depth, this`disturbed
      ensures Valid() && display.windows == old(display.windows)[w := window] && display.depth == depth
      ensures disturbed == old(disturbed + MisplacedAs(w, window))
      ensures forall a :: a in apps - old(disturbed) ==>
                (InOrder(display.windows, display.active, a.running) <==> a !in disturbed)
    {
      hide Sound, InOrder, Known, Sorted, AllClose, Distinct, AppSystem.InStep, ChainsEnd, Misplaced;
      ghost var before := display.windows;
      disturbed := disturbed + MisplacedAs(w, window);
      display.windows := display.windows[w := window];
      display.depth := depth;
      CloseSame(before, display.windows);
      forall a | a in apps
        ensures Sound(display.windows, a.state, a.running)
        ensures InOrder(before, display.active, a.running) ==>
                  (InOrder(display.windows, display.active, a.running) <==>
                   !Misplaced(before, display.active, a.running, w, window))
      {
        if InOrder(before, display.active, a.running) {
          MisplacedExact(before, display.windows, display.active, a.state, a.running, w);
        }
        SoundIn(before, display.windows, a.state, a.running);
      }
    }

    // on_window_created and load_initial_windows
    method WindowCreated(w: nat, pick: Option<App>)
      requires Valid() && w < |display.windows| && w !in windowToApp && (pick.Some? ==> pick.value in apps)
      modifies this, system, display`windows, apps
      ensures Valid() && old(apps) <= apps && fresh(apps - old(apps))
      ensures distinct == old(distinct) && focusApp == old(focusApp)
      ensures w in windowToApp && windowToApp == old(windowToApp)[w := windowToApp[w]]
      ensures
        var app := windowToApp[w];
        && (forall a :: a in old(apps) && a != app ==> a.running == old(a.running) && a.state == old(a.state))
        && app.running.Some?
        && if app in old(apps) then
             && WindowsOf(app.running) == WithWindow(old(WindowsOf(app.running)), w)
             && display.windows == Placed(old(display.windows), w, if w in old(WindowsOf(app.running)) then -1
                                                                   else old(app.startedOnWorkspace))
           else
             && WindowsOf(app.running) == WithWindow([RootOf(old(display.windows), old(display.depth), w)], w)
             && app.running.value.stale && display.windows == old(display.windows)
      ensures
        var owner := old(OwnerIn(windowToApp, w, pick));
        && (owner.Some? ==> windowToApp[w] == owner.value && disturbed == old(disturbed + UpsetBy(owner.value, w)))
        && (owner.None? ==> windowToApp[w] !in old(apps) && disturbed == old(disturbed))
      ensures forall a :: a in apps - old(disturbed) ==>
                (InOrder(display.windows, display.active, a.running) <==> a !in disturbed)
    {
      TrackWindow(w, pick);
    }

    // What giving a window up leaves, for the application it goes to next.
    method GiveUp(w: nat, ghost owner: Option<App>)
      requires Valid() && w < |display.windows| && w in windowToApp && (owner.Some? ==> owner.value in apps)
      modifies this`windowToApp, system, apps
      ensures Valid() && windowToApp == old(windowToApp) - {w}
      ensures forall a :: a in apps ==>
                WindowsOf(a.running) == Left(old(WindowsOf(a.running)), w, a == old(windowToApp[w]))
      ensures owner.Some? ==>
                var former := old(windowToApp[w]);
                && owner.value.startedOnWorkspace == old(owner.value.startedOnWorkspace)
                && UpsetBy(owner.value, w) == old(UpsetInTurn(former, owner.value, w))
                && (w in WindowsOf(owner.value.running) <==>
                    owner.value != former && w in old(WindowsOf(owner.value.running)))
    {
      hide Sound, InOrder, Known, Sorted, AllClose, AppSystem.InStep, Misplaced, RootOf, RemoveFirst, Display.Valid;
      ghost var former := windowToApp[w];
      ghost var upset := if owner.Some? then UpsetInTurn(former, owner.value, w) else {};
      DisassociateWindow(w);
      if owner.Some? {
        NotItself(display.windows, display.active, former.running, w,
                  display.windows[w].(workspace := owner.value.startedOnWorkspace));
        assert UpsetBy(owner.value, w) == upset;
      }
    }

    // tracked_window_changed: the class or the application id of a tracked window changed.
    method WindowChanged(w: nat, pick: Option<App>)
      requires Valid() && w < |display.windows| && w in windowToApp && (pick.Some? ==> pick.value in apps)
      modifies this, system, display`windows, apps
      ensures Valid() && old(apps) <= apps && fresh(apps - old(apps))
      ensures distinct == old(distinct) && focusApp == InFocus()
      ensures w in windowToApp && windowToApp == old(windowToApp)[w := windowToApp[w]]
      ensures
        var former, owner := old(windowToApp[w]), old(NextOwner(w, pick));
        var app := windowToApp[w];
        && (owner.Some? ==> app == owner.value && app in old(apps)) && (owner.None? ==> app !in old(apps))
        && (forall a :: a in old(apps) ==>
              var left := Left(old(WindowsOf(a.running)), w, a == former);
              WindowsOf(a.running) == if a == app then WithWindow(left, w) else left)
        && if app in old(apps) then
             && disturbed == old(disturbed + UpsetInTurn(former, app, w))
             && display.windows == Placed(old(display.windows), w,
                                          if app != former && w in old(WindowsOf(app.running)) then -1
                                          else old(app.startedOnWorkspace))
           else
             && WindowsOf(app.running) == WithWindow([old(Root(w))], w)
             && disturbed == old(disturbed) && display.windows == old(display.windows)
      ensures forall a :: a in apps - old(disturbed) ==>
                (InOrder(display.windows, display.active, a.running) <==> a !in disturbed)
    {
      hide *;
      hide WithWindow;
      OwnerAlive(w, pick);
      GiveUp(w, NextOwner(w, pick));
      TrackWindow(w, pick);
      UpdateFocusApp();
    }

    // on_window_unmanaged
    method WindowUnmanaged(w: nat)
      requires Valid()
      modifies this`windowToApp, system, apps
      ensures Valid() && windowToApp == old(windowToApp) - {w}
      ensures forall a :: a in apps ==> a.startedOnWorkspace == old(a.startedOnWorkspace)
      ensures forall a :: a in apps && !(w in old(windowToApp) && old(windowToApp)[w] == a) ==>
                a.running == old(a.running) && a.state == old(a.state)
      ensures w in old(windowToApp) ==>
                && WindowsOf(old(windowToApp)[w].running) == RemoveFirst(old(WindowsOf(windowToApp[w].running)), w)
                && w !in WindowsOf(old(windowToApp)[w].running)
    {
      DisassociateWindow(w);
    }

    // on_focus_window_changed
    method FocusChanged(focus: Option<nat>)
      requires Valid() && (focus.Some? ==> focus.value < |display.windows|)
      modifies display`focus, this`focusApp, apps`running
      ensures Valid() && display.focus == focus && focusApp == InFocus()
      ensures forall a :: a in apps ==>
                && WindowsOf(a.running) == old(WindowsOf(a.running)) && a.state == old(a.state)
                && (InOrder(display.windows, display.active, a.running) <==>
                    old(InOrder(display.windows, display.active, a.running)))
    {
      display.focus := focus;
      UpdateFocusApp();
    }

    /**
      on_startup_sequence_changed, of a sequence of this application. Taking the focus away notifies the tracker, which
      then has no application in focus.
     */
    method StartupSequenceChanged(app: App, completed: bool, workspace: int)
      requires Valid() && app in apps
      modifies app, system, display`focus, this`focusApp, apps`running
      ensures Valid()
      ensures if !completed && old(app.state) == STOPPED then display.focus == None && focusApp == None
              else display.focus == old(display.focus) && focusApp == old(focusApp)
      ensures forall a :: a in apps ==> a.running == old(a.running)
      ensures old(app.state) == RUNNING ==> app.state != STARTING
      ensures app.state == if !completed then if old(app.state) == STOPPED then STARTING else old(app.state)
                           else if app.running.Some? then RUNNING else STOPPED
      ensures app.running == old(app.running)
      ensures app.startedOnWorkspace == if completed then old(app.startedOnWorkspace) else workspace
    {
      hide Sound, InOrder, AppSystem.InStep;
      var unfocuses := !completed && app.state == STOPPED;
      app.HandleStartupSequence(completed, workspace, display, system, apps, distinct);
      if unfocuses {
        UpdateFocusApp();
      }
    }

    // on_shutdown; the map is empty at the end, as its g_assert says.
    method Shutdown()
      requires Valid()
      modifies this`windowToApp, system, apps
      ensures Valid() && windowToApp == map[]
    {
      var windows := windowToApp.Keys;
      while windows != {}
        invariant Valid() && windowToApp.Keys == windows
        decreases windows
      {
        var w :| w in windows;
        DisassociateWindow(w);
        windows := windows - {w};
      }
    }

    // A window's skip-taskbar property changes; the applications that list it have its handler connected.
    method SkipTaskbarChanged(w: nat)
      requires Valid() && w < |display.windows|
      modifies display`windows, system, apps
      ensures Valid()
      ensures display.windows == old(display.windows)[w := old(display.windows)[w].(
                                   skipTaskbar := !old(display.windows)[w].skipTaskbar)]
      ensures forall a :: a in apps ==> WindowsOf(a.running) == old(WindowsOf(a.running))
    {
      hide Sound, InOrder, Known, Sorted, AllClose, Distinct, RemoveFirst, AppSystem.InStep, ChainsEnd;
      ghost var before := display.windows;
      var window := display.windows[w];
      display.windows := display.windows[w := window.(skipTaskbar := !window.skipTaskbar)];
      CloseSame(before, display.windows);
      ChainsSame(before, display.windows, display.depth);
      var todo := set a | a in apps && w in WindowsOf(a.running);
      forall a | a in apps
        ensures a !in todo ==> Sound(display.windows, a.state, a.running)
        ensures InOrder(before, display.active, a.running) ==> InOrder(display.windows, display.active, a.running)
      {
        SameOrder(before, display.windows, display.active, a.state, a.running);
        if a !in todo {
          SoundIn(before, display.windows, a.state, a.running);
        }
      }
      TellSkipTaskbar(w, before, todo);
    }

    method TellSkipTaskbar(w: nat, ghost before: seq<Window>, apps0: set<App>)
      requires apps0 <= apps && system.InStep(apps, distinct) && |before| == |display.windows| && w < |before|
      requires display.windows == before[w := before[w].(skipTaskbar := !before[w].skipTaskbar)]
      requires forall a :: a in apps0 ==> Sound(before, a.state, a.running) && w in WindowsOf(a.running)
      requires forall a :: a in apps - apps0 ==> Sound(display.windows, a.state, a.running)
      requires forall a :: a in apps && a !in disturbed ==> InOrder(display.windows, display.active, a.running)
      modifies apps, system
      ensures system.InStep(apps, distinct)
      ensures forall a :: a in apps ==> Sound(display.windows, a.state, a.running)
      ensures forall a :: a in apps && a !in disturbed ==> InOrder(display.windows, display.active, a.running)
      ensures forall a :: a in apps ==> WindowsOf(a.running) == old(WindowsOf(a.running))
    {
      hide Sound, InOrder, Known, Sorted, AllClose, Distinct, RemoveFirst, AppSystem.InStep;
      var todo := apps0;
      while todo != {}
        invariant todo <= apps0 && system.InStep(apps, distinct)
        invariant forall a :: a in apps ==> WindowsOf(a.running) == old(WindowsOf(a.running))
        invariant forall a :: a in apps - todo ==> Sound(display.windows, a.state, a.running)
        invariant forall a :: a in todo ==> Sound(before, a.state, a.running)
        invariant forall a :: a in apps && a !in disturbed ==> InOrder(display.windows, display.active, a.running)
        decreases todo
      {
        var a :| a in todo;
        ghost var running := a.running;
        a.OnSkipTaskbarChanged(w, display, system, before, apps, distinct);
        SameList(display.windows, display.active, STOPPED, running, a.running);
        todo := todo - {a};
      }
    }

    // A window's user time grows, staying within 2^31 of the others'.
    method UserTimeChanged(w: nat, time: nat)
      requires Valid() && w < |display.windows| && display.windows[w].userTime <= time
      requires AllClose(display.windows[w := display.windows[w].(userTime := time)])
      modifies display`windows, apps`running
      ensures Valid() && display.windows == old(display.windows)[w := old(display.windows)[w].(userTime := time)]
      ensures forall a :: a in apps ==> WindowsOf(a.running) == old(WindowsOf(a.running))
      ensures forall a :: a in apps && w in WindowsOf(a.running) && WindowsOf(a.running)[0] != w ==>
                a.running.value.stale
    {
      hide Sound, InOrder, Known, Sorted, AllClose, Distinct, RemoveFirst, AppSystem.InStep, ChainsEnd;
      ghost var before := display.windows;
      display.windows := display.windows[w := display.windows[w].(userTime := time)];
      ChainsSame(before, display.windows, display.depth);
      var todo := set a | a in apps && w in WindowsOf(a.running);
      forall a | a in apps
        ensures Sound(display.windows, a.state, a.running)
        ensures a !in todo && a !in disturbed ==> InOrder(display.windows, display.active, a.running)
      {
        SoundIn(before, display.windows, a.state, a.running);
        if a !in todo && a !in disturbed {
          InOrderElsewhere(before, display.windows, display.active, a.state, a.running, w);
        }
      }
      TellUserTime(w, before, todo);
    }

    method TellUserTime(w: nat, ghost before: seq<Window>, apps0: set<App>)
      requires apps0 <= apps && |before| == |display.windows| && w < |before|
      requires before[w].userTime <= display.windows[w].userTime
      requires display.windows == before[w := before[w].(userTime := display.windows[w].userTime)]
      requires forall a :: a in apps ==> Sound(display.windows, a.state, a.running)
      requires forall a :: a in apps0 ==> w in WindowsOf(a.running)
      requires forall a :: a in apps0 - disturbed ==> InOrder(before, display.active, a.running)
      requires forall a :: a in apps - apps0 - disturbed ==> InOrder(display.windows, display.active, a.running)
      modifies apps`running
      ensures forall a :: a in apps ==> Sound(display.windows, a.state, a.running)
      ensures forall a :: a in apps - disturbed ==> InOrder(display.windows, display.active, a.running)
      ensures forall a :: a in apps ==> WindowsOf(a.running) == old(WindowsOf(a.running))
      ensures forall a :: a in apps0 && WindowsOf(a.running) != [] && WindowsOf(a.running)[0] != w ==>
                a.running.value.stale
    {
      hide Sound, InOrder, WindowsOf;
      var todo := apps0;
      while todo != {}
        invariant todo <= apps0
        invariant forall a :: a in apps ==> WindowsOf(a.running) == old(WindowsOf(a.running))
        invariant forall a :: a in apps ==> Sound(display.windows, a.state, a.running)
        invariant forall a :: a in apps - todo - disturbed ==> InOrder(display.windows, display.active, a.running)
        invariant forall a :: a in apps0 - todo && WindowsOf(a.running) != [] && WindowsOf(a.running)[0] != w ==>
                    a.running.Some? && a.running.value.stale
        invariant forall a :: a in todo - disturbed ==> InOrder(before, display.active, a.running)
        decreases todo
      {
        var a :| a in todo;
        ListMeans(display.windows, a.state, a.running, w);
        ghost var running := a.running;
        a.OnUserTimeChanged(w);
        TimeInOrder(before, display.windows, display.active, a.state, running, a.running, w);
        todo := todo - {a};
      }
    }

    // Another workspace becomes active.
    method WorkspaceSwitched(to: int)
      requires Valid()
      modifies display`active, apps`running, this`disturbed
      ensures Valid() && display.active == to && disturbed == {}
      ensures forall a :: a in apps ==> WindowsOf(a.running) == old(WindowsOf(a.running))
      ensures forall a :: a in apps && a.running.Some? ==> a.running.value.stale
    {
      hide Sound, InOrder, Known, Sorted, AllClose, Distinct, RemoveFirst, AppSystem.InStep, ChainsEnd;
      display.active := to;
      var todo := set a | a in apps && a.running.Some?;
      while todo != {}
        invariant todo <= apps
        invariant forall a :: a in apps ==> Sound(display.windows, a.state, a.running)
        invariant forall a :: a in todo ==> a.running.Some?
        invariant forall a :: a in apps ==> WindowsOf(a.running) == old(WindowsOf(a.running))
        invariant forall a :: a in apps - todo ==> a.running.Some? ==> a.running.value.stale
        decreases todo
        modifies apps`running
      {
        var a :| a in todo;
        ghost var running := a.running;
        a.OnWorkspaceSwitch();
        SameList(display.windows, to, a.state, running, a.running);
        todo := todo - {a};
      }
      forall a | a in apps
        ensures InOrder(display.windows, to, a.running)
      {
        StaleInOrder(display.windows, to, a.running);
      }
      disturbed := {};
    }

    // shell_app_get_windows: what it returns is a fresh sort, unless the list was disturbed.
    method GetWindows(app: App) returns (windows: seq<nat>)
      requires Valid() && app in apps
      modifies app`running, this`disturbed
      ensures disturbed == old(if app.running.Some? && app.running.value.stale then disturbed - {app} else disturbed)
      ensures Valid()
      ensures old(app !in disturbed || (app.running.Some? && app.running.value.stale)) ==>
                app !in disturbed
                && Known(display.windows, WindowsOf(old(app.running)))
                && windows == Managed(display.windows,
                                      Sort(display.windows, display.active, WindowsOf(old(app.running))))
      ensures app.running.Some? <==> old(app.running).Some?
      ensures app.running.Some? ==> !app.running.value.stale && Known(display.windows, WindowsOf(old(app.running)))
      ensures app.running.Some? ==>
                (WindowsOf(app.running) == Sort(display.windows, display.active, WindowsOf(old(app.running))) <==>
                 old(app.running).value.stale || old(InOrder(display.windows, display.active, app.running)))
    {
      hide Sound, InOrder, Known, Sorted, Sort, AllClose, AppSystem.InStep, ChainsEnd;
      ghost var running := app.running;
      windows := app.GetWindows(display);
      SortedInOrder(display.windows, display.active, app.state, running);
      if running.Some? && running.value.stale {
        disturbed := disturbed - {app};
      }
    }

    lemma NotRunning(app: App)
      requires system.InStep(apps, distinct) && app in apps && app !in system.runningApps
      ensures app.state != RUNNING
    {
    }

    lemma OneLess(app: App)
      requires system.InStep(apps, distinct) && app in apps && app.state != RUNNING
      ensures system.InStep(apps - {app}, distinct)
    {
    }

    // The last reference to an application goes: shell_app_dispose. Its g_assert, that the application is stopped by
    // then, holds exactly if it was not starting.
    method Dispose(app: App)
      requires Valid() && app in apps && app !in windowToApp.Values && app !in system.runningApps
      requires focusApp != Some(app)
      modifies app`state, app`running, system, this`apps
      ensures Valid() && apps == old(apps) - {app} && app.state == old(app.state) != RUNNING && app.running == None
    {
      hide Sound, InOrder, Known, Sorted, AllClose, Distinct, RemoveFirst, AppSystem.InStep, ChainsEnd;
      NotRunning(app);
      while app.running.Some?
        invariant Valid() && apps == old(apps) && app.state == old(app.state) != RUNNING
        decreases |WindowsOf(app.running)|
        modifies app`state, app`running, system
      {
        SoundMeans(display.windows, app.state, app.running);
        var w := app.running.value.windows[0];
        RemoveFirstDistinct(app.running.value.windows, w);
        ghost var state, running := app.state, app.running;
        app.RemoveWindow(w, display, system, apps, distinct);
        RemovedInOrder(display.windows, display.active, state, running, app.running, w);
      }
      OneLess(app);
      apps := apps - {app};
    }
  }

  /**
    A list that is disturbed. A dialog is tracked before its parent, which its application then lists too; the parent
    itself goes to another application, which was started on another workspace and moves it there. The first list is out
    of order and not marked.
   */
  method DisturbedList() returns (t: Tracker, app: App)
    ensures fresh(t) && t.Valid() && app in t.apps && app.running.Some?
    ensures !app.running.value.stale && !InOrder(t.display.windows, t.display.active, app.running)
  {
    hide InOrder, Sorted, Sort, Known, Managed, Tracker.AppsValid, Tracker.Mapped;
    t := DialogFirst();
    app := t.windowToApp[1];
    var _ := t.GetWindows(app);
    DialogSorted();
    ParentElsewhere(t, app);
    DialogDisturbed(app.running);
  }

  // The parent is created, for an application started on another workspace.
  method ParentElsewhere(t: Tracker, app: App)
    requires t.Valid() && t.display.windows == Dialog() && t.display.depth == [0, 1]
    requires t.windowToApp.Keys == {1} && app in t.apps
    modifies t, t.system, t.display`windows, t.display`focus, t.apps
    ensures t.Valid() && app in t.apps && app.running == old(app.running)
    ensures t.display.windows == Placed(Dialog(), 0, 5) && t.display.active == old(t.display.active)
  {
    hide Sound, InOrder, AppSystem.InStep, Tracker.AppsValid, Tracker.Mapped, Display.Valid, Placed, RootOf, ChainsEnd;
    var other := t.NewApp(Some("other"));
    t.StartupSequenceChanged(other, false, 5);
    DialogRoots();
    t.WindowCreated(0, Some(other));
  }

  // The dialog is tracked, and its parent is not.
  method DialogFirst() returns (t: Tracker)
    ensures fresh(t) && t.Valid() && t.display.windows == Dialog() && t.display.depth == [0, 1]
    ensures t.display.active == 0 && fresh(t.display) && fresh(t.system) && fresh(t.apps)
    ensures t.windowToApp.Keys == {1} && t.windowToApp[1] in t.apps
    ensures t.windowToApp[1].running.Some? && t.windowToApp[1].running.value.stale
    ensures WindowsOf(t.windowToApp[1].running) == [1, 0]
  {
    hide Sound, InOrder, AppSystem.InStep, Tracker.AppsValid, Display.Valid, Placed, RootOf, ChainsEnd;
    t := new Tracker(0);
    var parent := t.WindowAppears(PlainWindow(10, None));
    var dialog := t.WindowAppears(PlainWindow(0, None));
    DialogRoots();
    assert t.display.windows[1 := PlainWindow(0, Some(0))] == Dialog();
    t.PropertiesChanged(1, PlainWindow(0, Some(0)), [0, 1]);
    t.WindowCreated(1, None);
  }

  function PlainWindow(userTime: nat, transientFor: Option<nat>): Window {
    Window(false, transientFor, true, false, 0, false, true, userTime, false, false)
  }

  // A window and its dialog, on the active workspace.
  function Dialog(): seq<Window> {
    [PlainWindow(10, None), PlainWindow(0, Some(0))]
  }

  lemma DialogRoots()
    ensures ChainsEnd(Dialog(), [0, 1]) && RootOf(Dialog(), [0, 1], 0) == 0 && RootOf(Dialog(), [0, 1], 1) == 0
    ensures Dialog()[0].normal && !Dialog()[0].remote && |Dialog()| == 2
  {
  }

  lemma DialogSorted()
    ensures Known(Dialog(), [1, 0]) && Sort(Dialog(), 0, [1, 0]) == [0, 1]
  {
    assert [1, 0][1..] == [0] && [0][1..] == [];
    assert Sort(Dialog(), 0, [0]) == [0];
    assert Insert(Dialog(), 0, 1, [0]) == [0, 1];
  }

  lemma DialogDisturbed(running: Option<Running>)
    requires running.Some? && running.value.windows == [0, 1] && !running.value.stale
    ensures !InOrder(Placed(Dialog(), 0, 5), 0, running)
  {
    var table := Placed(Dialog(), 0, 5);
    var xs := running.value.windows;
    assert Precedes(0, table[xs[1]], table[xs[0]]);
  }

  // The window, or the first of its transient parents, that does not skip the taskbar.
  ghost function InTaskbar(display: Display, w: Option<nat>): Option<nat>
    requires display.Valid() && (w.Some? ==> w.value < |display.windows|)
    reads display
    decreases if w.Some? then display.depth[w.value] + 1 else 0
  {
    if w.Some? && display.windows[w.value].skipTaskbar
    then InTaskbar(display, display.windows[w.value].transientFor)
    else w
  }

  // The end of a window's chain of transient parents.
  ghost function RootOf(windows: seq<Window>, depth: seq<nat>, w: nat): (r: nat)
    requires ChainsEnd(windows, depth) && w < |windows|
    ensures r < |windows| && windows[r].transientFor == None
    decreases depth[w]
  {
    if windows[w].transientFor.Some? then RootOf(windows, depth, windows[w].transientFor.value) else w
  }

  // What is left of a list when the window is given up, or not.
  function Left(xs: seq<nat>, w: nat, gives: bool): seq<nat> {
    if gives then RemoveFirst(xs, w) else xs
  }

  // A window is listed once, a new one first.
  function WithWindow(xs: seq<nat>, w: nat): seq<nat> {
    if w in xs then xs else [w] + xs
  }

  // A list that is not marked, in which the window would be out of place as `moved`.
  predicate Misplaced(table: seq<Window>, active: int, running: Option<Running>, w: nat, moved: Window) {
    running.Some? && !running.value.stale && Known(table, running.value.windows)
    && exists i :: 0 <= i < |running.value.windows| && running.value.windows[i] == w
         && !FitsAt(table, active, running.value.windows, i, moved)
  }

  lemma NotItself(table: seq<Window>, active: int, running: Option<Running>, w: nat, moved: Window)
    ensures w !in WindowsOf(running) ==> !Misplaced(table, active, running, w, moved)
  {
  }

  // A list in order goes out of order exactly so.
  lemma MisplacedExact(table: seq<Window>, table': seq<Window>, active: int, state: State, running: Option<Running>,
                       w: nat)
    requires InOrder(table, active, running) && Sound(table, state, running) && |table'| == |table| && w < |table|
    requires forall i :: 0 <= i < |table| && i != w ==> table'[i] == table[i]
    ensures InOrder(table', active, running) <==> !Misplaced(table, active, running, w, table'[w])
  {
    if running.Some? && !running.value.stale {
      var xs := running.value.windows;
      if w in xs {
        var i :| 0 <= i < |xs| && xs[i] == w;
        MovedExact(table, table', active, xs, i);
      } else {
        InOrderElsewhere(table, table', active, state, running, w);
      }
    }
  }

  // Everything but the workspace.
  predicate SameBut(a: Window, b: Window) {
    a == b.(workspace := a.workspace)
  }

  lemma InOrderElsewhere(table: seq<Window>, table': seq<Window>, active: int, state: State, running: Option<Running>,
                         w: nat)
    requires InOrder(table, active, running) && Sound(table, state, running) && |table'| == |table|
    requires w !in WindowsOf(running) && forall i :: 0 <= i < |table| && i != w ==> table'[i] == table[i]
    ensures InOrder(table', active, running)
  {
    if running.Some? && !running.value.stale {
      var xs := running.value.windows;
      forall i, j | 0 <= i < j < |xs|
        ensures !Precedes(active, table'[xs[j]], table'[xs[i]])
      {
        assert xs[i] in xs && xs[j] in xs;
        assert !Precedes(active, table[xs[j]], table[xs[i]]);
      }
    }
  }

  lemma SameOrder(table: seq<Window>, table': seq<Window>, active: int, state: State, running: Option<Running>)
    requires Sound(table, state, running) && |table'| == |table|
    requires forall i :: 0 <= i < |table| ==>
               table'[i].userTime == table[i].userTime && table'[i].workspace == table[i].workspace
               && table'[i].visible == table[i].visible
    ensures InOrder(table, active, running) ==> InOrder(table', active, running)
  {
    if running.Some? && !running.value.stale && InOrder(table, active, running) {
      var xs := running.value.windows;
      forall i, j | 0 <= i < j < |xs|
        ensures !Precedes(active, table'[xs[j]], table'[xs[i]])
      {
        assert !Precedes(active, table[xs[j]], table[xs[i]]);
      }
    }
  }

  lemma StaleInOrder(table: seq<Window>, active: int, running: Option<Running>)
    ensures (running.Some? ==> running.value.stale) ==> InOrder(table, active, running)
  {
  }

  // Order and soundness are of the list, its mark and its count.
  lemma SameList(table: seq<Window>, active: int, state: State, running: Option<Running>, running': Option<Running>)
    requires running.Some? && running'.Some? && running'.value.windows == running.value.windows
    ensures running'.value.stale == running.value.stale && InOrder(table, active, running) ==>
              InOrder(table, active, running')
    ensures running'.value.interesting == running.value.interesting && Sound(table, state, running) ==>
              Sound(table, state, running')
  {
  }

  lemma RemovedInOrder(table: seq<Window>, active: int, state: State, running: Option<Running>,
                       running': Option<Running>, w: nat)
    requires running.Some? && Sound(table, state, running)
    requires WindowsOf(running') == RemoveFirst(running.value.windows, w)
    requires running'.Some? ==> running'.value.stale == running.value.stale
    ensures InOrder(table, active, running) ==> InOrder(table, active, running')
  {
    if !running.value.stale && InOrder(table, active, running) {
      RemoveSorted(table, active, running.value.windows, w);
    }
  }

  lemma ListMeans(table: seq<Window>, state: State, running: Option<Running>, w: nat)
    requires Sound(table, state, running) && w in WindowsOf(running)
    ensures running.Some? && running.value.windows != [] && running.value.windows == WindowsOf(running)
  {
  }

  // A window's time grows: at the head it stays there, elsewhere the list is marked.
  lemma TimeInOrder(table: seq<Window>, table': seq<Window>, active: int, state: State, running: Option<Running>,
                    running': Option<Running>, w: nat)
    requires Sound(table', state, running) && |table'| == |table| && w < |table| && w in WindowsOf(running)
    requires table' == table[w := table[w].(userTime := table'[w].userTime)]
    requires table[w].userTime <= table'[w].userTime
    requires running' == if w == running.value.windows[0] then running else Some(running.value.(stale := true))
    ensures Sound(table', state, running') && running'.Some? && WindowsOf(running') == WindowsOf(running)
    ensures WindowsOf(running)[0] != w ==> running'.value.stale
    ensures InOrder(table, active, running) ==> InOrder(table', active, running')
  {
    if InOrder(table, active, running) && !running'.value.stale {
      HeadGrows(table, table', active, running.value.windows, w);
    }
  }

  lemma SortedInOrder(table: seq<Window>, active: int, state: State, running: Option<Running>)
    requires Sound(table, state, running) && AllClose(table)
    ensures
      var xs := WindowsOf(running);
      && Known(table, xs)
      && (running.Some? && running.value.stale ==>
            InOrder(table, active, Some(running.value.(windows := Sort(table, active, xs), stale := false))))
      && (running.Some? && !running.value.stale ==>
            (InOrder(table, active, running) <==> Sort(table, active, xs) == xs))
      && (forall x :: x in xs ==> x in Sort(table, active, xs))
  {
    var xs := WindowsOf(running);
    SortSorts(table, active, xs);
    SortedIsFresh(table, active, xs);
    forall x | x in xs
      ensures x in Sort(table, active, xs)
    {
      assert x in multiset(xs);
    }
  }

  // What adding a window may do to the table.
  lemma Rewritten(table: seq<Window>, table': seq<Window>, depth: seq<nat>, w: nat)
    requires AllClose(table) && ChainsEnd(table, depth) && w < |table|
    requires table' == table || exists to :: table' == table[w := table[w].(workspace := to)]
    ensures AllClose(table') && ChainsEnd(table', depth) && |table'| == |table|
    ensures forall i :: 0 <= i < |table| ==> SameBut(table'[i], table[i])
    ensures forall i :: 0 <= i < |table| ==> table'[i].skipTaskbar == table[i].skipTaskbar
    ensures forall i :: 0 <= i < |table| && i != w ==> table'[i] == table[i]
  {
    CloseSame(table, table');
    ChainsSame(table, table', depth);
  }

  lemma ChainsSame(table: seq<Window>, table': seq<Window>, depth: seq<nat>)
    requires ChainsEnd(table, depth) && |table'| == |table|
    requires forall i :: 0 <= i < |table| ==> table'[i].transientFor == table[i].transientFor
    ensures ChainsEnd(table', depth)
  {
  }

  lemma CloseSame(table: seq<Window>, table': seq<Window>)
    requires AllClose(table) && |table'| == |table|
    requires forall i :: 0 <= i < |table| ==> table'[i].userTime == table[i].userTime
    ensures AllClose(table')
  {
    forall i, j | 0 <= i < |table'| && 0 <= j < |table'|
      ensures TimesClose(table'[i], table'[j])
    {
      assert TimesClose(table[i], table[j]);
    }
  }
}
