/**
  Applications and their windows: src/shell-app.c, src/shell-app-system.c and src/shell-window-tracker.c. Windows are
  the compositor's; they are indices into the display's table, and their property changes are events.
 */
module Apps {
  import opened Wrappers
  import opened Sequences
  import opened WindowOrder

  datatype State = STOPPED | STARTING | RUNNING

  // ShellAppRunningState; `actionsOf` is the window whose actions are inserted as "win".
  datatype Running = Running(windows: seq<nat>, interesting: nat, stale: bool, actionsOf: Option<nat>)

  // The number of windows that do not skip the taskbar.
  function Interesting(table: seq<Window>, xs: seq<nat>): nat
    requires Known(table, xs)
  {
    if xs == [] then 0 else (if table[xs[0]].skipTaskbar then 0 else 1) + Interesting(table, xs[1..])
  }

  predicate Counted(table: seq<Window>, r: Running) {
    Known(table, r.windows) && Distinct(r.windows) && r.interesting == Interesting(table, r.windows)
  }

  // What holds of an application between events.
  predicate Sound(table: seq<Window>, state: State, running: Option<Running>) {
    && (state == RUNNING ==> running.Some?)
    && (running.Some? ==>
          var r := running.value;
          && r.windows != [] && Counted(table, r)
          && (state == STOPPED ==> r.interesting == 0))
  }

  // A list not marked stale is in order.
  predicate InOrder(table: seq<Window>, active: int, running: Option<Running>) {
    running.Some? && !running.value.stale && Known(table, running.value.windows) ==>
      Sorted(table, active, running.value.windows)
  }

  function WindowsOf(running: Option<Running>): seq<nat> {
    if running.Some? then running.value.windows else []
  }

  // ---------- counting ----------

  lemma {:induction false} InterestingSame(table: seq<Window>, table': seq<Window>, xs: seq<nat>)
    requires Known(table, xs) && |table| <= |table'|
    requires forall i :: 0 <= i < |xs| ==> table'[xs[i]].skipTaskbar == table[xs[i]].skipTaskbar
    ensures Known(table', xs) && Interesting(table', xs) == Interesting(table, xs)
  {
    if xs != [] {
      InterestingSame(table, table', xs[1..]);
    }
  }

  lemma {:induction false} InterestingRemove(table: seq<Window>, xs: seq<nat>, w: nat)
    requires Known(table, xs) && w in xs
    ensures Known(table, RemoveFirst(xs, w))
    ensures Interesting(table, xs) == Interesting(table, RemoveFirst(xs, w)) + if table[w].skipTaskbar then 0 else 1
  {
    if xs[0] != w {
      var rest := RemoveFirst(xs[1..], w);
      InterestingRemove(table, xs[1..], w);
      assert RemoveFirst(xs, w) == [xs[0]] + rest;
      assert ([xs[0]] + rest)[1..] == rest;
    }
  }

  // Flipping the flag of a listed window moves the count by one.
  lemma {:induction false} InterestingFlip(table: seq<Window>, table': seq<Window>, xs: seq<nat>, w: nat)
    requires Known(table, xs) && Distinct(xs) && w in xs && |table'| == |table|
    requires forall i :: 0 <= i < |table| && i != w ==> table'[i] == table[i]
    requires table'[w].skipTaskbar == !table[w].skipTaskbar
    ensures Known(table', xs)
    ensures if table[w].skipTaskbar then Interesting(table', xs) == Interesting(table, xs) + 1
            else Interesting(table', xs) == Interesting(table, xs) - 1
  {
    if xs[0] == w {
      InterestingSame(table, table', xs[1..]);
    } else {
      InterestingFlip(table, table', xs[1..], w);
    }
  }

  lemma {:induction false} InterestingSort(table: seq<Window>, xs: seq<nat>, ys: seq<nat>)
    requires Known(table, xs) && Known(table, ys) && multiset(xs) == multiset(ys)
    ensures Interesting(table, xs) == Interesting(table, ys)
  {
    if xs == [] {
      assert |multiset(ys)| == 0;
    } else {
      assert xs == [xs[0]] + xs[1..];
      assert xs[0] in multiset(ys);
      InterestingRemove(table, ys, xs[0]);
      RemoveFirstCounts(ys, xs[0]);
      InterestingSort(table, xs[1..], RemoveFirst(ys, xs[0]));
    }
  }

  lemma DistinctMultiset(xs: seq<nat>)
    ensures Distinct(xs) <==> forall x :: multiset(xs)[x] <= 1
  {
    if xs != [] {
      assert xs == [xs[0]] + xs[1..];
      DistinctMultiset(xs[1..]);
      if Distinct(xs) {
        assert xs[0] !in xs[1..];
        assert forall x :: multiset(xs)[x] == (if x == xs[0] then 1 else 0) + multiset(xs[1..])[x];
      } else if Distinct(xs[1..]) {
        assert xs[0] in xs[1..];
        assert multiset(xs)[xs[0]] > 1;
      } else {
        var x :| multiset(xs[1..])[x] > 1;
        assert multiset(xs)[x] > 1;
      }
    }
  }

  // A table in which only what does not matter to counts and order was appended or changed.
  lemma SoundIn(table: seq<Window>, table': seq<Window>, state: State, running: Option<Running>)
    requires Sound(table, state, running) && |table| <= |table'|
    requires forall x :: x in WindowsOf(running) && x < |table| ==> table'[x].skipTaskbar == table[x].skipTaskbar
    ensures Sound(table', state, running)
  {
    if running.Some? {
      InterestingSame(table, table', running.value.windows);
    }
  }

  // ---------- the application system ----------

  class AppSystem {
    var runningApps: set<App>
    // Desktop file ids with a usage timer.
    var timers: set<string>

    constructor ()
      ensures runningApps == {} && timers == {} && InStep({}, true)
    {
      runningApps, timers := {}, {};
    }

    /**
      The running set is exactly the running applications; and if no two applications ever had the same id, the timers
      are exactly the ids of the running ones that have a desktop file.
     */
    ghost predicate InStep(apps: set<App>, distinct: bool)
      reads this, apps`state
    {
      && runningApps == (set a | a in apps && a.state == RUNNING)
      && (distinct ==> IdsDistinct(apps) && timers == IdsOf(runningApps))
    }

    // _shell_app_system_notify_app_state_changed
    method NotifyAppStateChanged(app: App)
      modifies this
      ensures runningApps == match app.state
              case RUNNING => old(runningApps) + {app}
              case STARTING => old(runningApps)
              case STOPPED => old(runningApps) - {app}
      ensures timers == match app.state
              case RUNNING => old(timers) + IdOf(app)
              case STARTING => old(timers)
              case STOPPED => old(timers) - if app in old(runningApps) then IdOf(app) else {}
    {
      match app.state
      case RUNNING =>
        if app.id.Some? && app.id.value !in timers {
          timers := timers + {app.id.value};
        }
        runningApps := runningApps + {app};
      case STARTING =>
      case STOPPED =>
        if app in runningApps {
          runningApps := runningApps - {app};
          if app.id.Some? {
            timers := timers - {app.id.value};
          }
        }
    }
  }

  ghost predicate IdsDistinct(apps: set<App>) {
    forall a, b :: a in apps && b in apps && a.id.Some? && a.id == b.id ==> a == b
  }

  function IdOf(app: App): set<string> {
    if app.id.Some? then {app.id.value} else {}
  }

  ghost function IdsOf(apps: set<App>): set<string> {
    set a | a in apps && a.id.Some? :: a.id.value
  }

  // ---------- an application ----------

  // `depth` rises along transient parents, which therefore end.
  ghost predicate ChainsEnd(windows: seq<Window>, depth: seq<nat>) {
    |depth| == |windows|
    && forall w {:trigger windows[w]} :: 0 <= w < |windows| && windows[w].transientFor.Some? ==>
         windows[w].transientFor.value < |windows| && depth[windows[w].transientFor.value] < depth[w]
  }

  class Display {
    var windows: seq<Window>
    var active: int
    var focus: Option<nat>
    ghost var depth: seq<nat>

    constructor (active: int)
      ensures Valid() && windows == [] && depth == [] && focus == None && this.active == active
    {
      windows, depth, focus := [], [], None;
      this.active := active;
    }

    ghost predicate Valid()
      reads this
    {
      && AllClose(windows) && ChainsEnd(windows, depth)
      && (focus.Some? ==> focus.value < |windows|)
    }
  }

  // The windows after a new one of an application that was started on a workspace, if `workspace` is one.
  function Placed(table: seq<Window>, w: nat, workspace: int): (r: seq<Window>)
    requires w < |table|
    ensures |r| == |table|
  {
    if workspace >= 0 && !table[w].onAllWorkspaces then table[w := table[w].(workspace := workspace)] else table
  }

  class App {
    // The id of the desktop file; none for an application made for a window.
    const id: Option<string>
    var state: State
    var running: Option<Running>
    var startedOnWorkspace: int

    // shell_app_init
    constructor (id: Option<string>)
      ensures this.id == id && state == STOPPED && running == None && startedOnWorkspace == -1
    {
      this.id := id;
      state, running, startedOnWorkspace := STOPPED, None, -1;
    }

    // shell_app_state_transition; the g_return_if_fail is its precondition.
    method StateTransition(to: State, system: AppSystem, ghost apps: set<App>, ghost distinct: bool)
      requires this in apps && system.InStep(apps, distinct) && !(state == RUNNING && to == STARTING)
      modifies this`state, system
      ensures state == to && system.InStep(apps, distinct)
    {
      if state == to {
        return;
      }
      ghost var was := state;
      state := to;
      system.NotifyAppStateChanged(this);
      assert forall a :: a in apps && a != this ==> a.state == old(a.state);
      assert old(system.runningApps) - {this} == set a | a in apps && a != this && a.state == RUNNING;
      if distinct {
        IdsChange(old(system.runningApps), apps, this);
      }
    }

    // shell_app_sync_running_state
    method SyncRunningState(system: AppSystem, ghost apps: set<App>, ghost distinct: bool)
      requires running.Some? && this in apps && system.InStep(apps, distinct)
      modifies this`state, system
      ensures system.InStep(apps, distinct)
      ensures state == if old(state) == STARTING then STARTING
                       else if running.value.interesting == 0 then STOPPED else RUNNING
    {
      if state != STARTING {
        StateTransition(if running.value.interesting == 0 then STOPPED else RUNNING, system, apps, distinct);
      }
    }

    // _shell_app_add_window
    method AddWindow(w: nat, display: Display, system: AppSystem, ghost apps: set<App>, ghost distinct: bool)
      requires Sound(display.windows, state, running) && w < |display.windows|
      requires this in apps && system.InStep(apps, distinct)
      modifies this, system, display`windows
      ensures Sound(display.windows, state, running) && system.InStep(apps, distinct) && running.Some?
      ensures
        var listed := w in WindowsOf(old(running));
        && (listed ==> running == old(running) && state == old(state) && startedOnWorkspace == old(startedOnWorkspace))
        && (!listed ==> running.value.stale && startedOnWorkspace == -1
                        && running.value.windows == [w] + WindowsOf(old(running))
                        && state == if old(state) == STARTING then STARTING
                                    else if running.value.interesting == 0 then STOPPED else RUNNING)
        && display.windows == Placed(old(display.windows), w, if listed then -1 else old(startedOnWorkspace))
    {
      if running.Some? && w in running.value.windows {
        return;
      }
      ghost var table := display.windows;
      if running == None {
        running := Some(Running([], 0, false, None));
        NoneCounted(table);
      }
      hide Counted, Interesting;
      var r := running.value;
      AddedCounted(table, r, w);
      var more := if display.windows[w].skipTaskbar then 0 else 1;
      running := Some(r.(windows := [w] + r.windows, interesting := r.interesting + more, stale := true));
      SyncRunningState(system, apps, distinct);
      assert Sound(table, state, running);
      if startedOnWorkspace >= 0 && !display.windows[w].onAllWorkspaces {
        display.windows := display.windows[w := display.windows[w].(workspace := startedOnWorkspace)];
      }
      startedOnWorkspace := -1;
      SoundIn(table, display.windows, state, running);
    }

    // _shell_app_remove_window; its g_assert is the first precondition.
    method RemoveWindow(w: nat, display: Display, system: AppSystem, ghost apps: set<App>, ghost distinct: bool)
      requires running.Some?
      requires Sound(display.windows, state, running) && this in apps && system.InStep(apps, distinct)
      modifies this`state, this`running, system
      ensures Sound(display.windows, state, running) && system.InStep(apps, distinct)
      ensures WindowsOf(running) == RemoveFirst(old(running).value.windows, w)
      ensures running.None? <==> RemoveFirst(old(running).value.windows, w) == []
      ensures running.Some? ==> running.value.stale == old(running).value.stale
      ensures state == if old(state) == STARTING || w !in old(running).value.windows then old(state)
                       else if running.None? || running.value.interesting == 0 then STOPPED else RUNNING
      ensures old(state) == STOPPED ==> state == STOPPED
    {
      if w !in running.value.windows {
        return;
      }
      hide Counted, RemoveFirst;
      var r := running.value;
      RemovedCounted(display.windows, r, w);
      // The count does not underflow.
      var less := if display.windows[w].skipTaskbar then 0 else 1;
      running := Some(r.(windows := RemoveFirst(r.windows, w), interesting := r.interesting - less));
      SyncRunningState(system, apps, distinct);
      if running.value.windows == [] {
        running := None;
      }
    }

    // shell_app_on_skip_taskbar_changed, once the window's flag has changed from what it was in `before`.
    method OnSkipTaskbarChanged(w: nat, display: Display, system: AppSystem, ghost before: seq<Window>,
                                ghost apps: set<App>, ghost distinct: bool)
      requires running.Some? && w in running.value.windows
      requires Sound(before, state, running) && this in apps && system.InStep(apps, distinct)
      requires |display.windows| == |before| && w < |before|
      requires forall i :: 0 <= i < |before| && i != w ==> display.windows[i] == before[i]
      requires display.windows[w] == before[w].(skipTaskbar := !before[w].skipTaskbar)
      modifies this`state, this`running, system
      ensures Sound(display.windows, state, running) && system.InStep(apps, distinct)
      ensures running.Some? && running.value.windows == old(running).value.windows
      ensures running.value.stale == old(running).value.stale
    {
      var r := running.value;
      InterestingFlip(before, display.windows, r.windows, w);
      if display.windows[w].skipTaskbar {
        running := Some(r.(interesting := r.interesting - 1));
      } else {
        running := Some(r.(interesting := r.interesting + 1));
      }
      SyncRunningState(system, apps, distinct);
    }

    // shell_app_on_user_time_changed, of a window in the list.
    method OnUserTimeChanged(w: nat)
      requires running.Some? && running.value.windows != []
      modifies this`running
      ensures running == if w == old(running).value.windows[0] then old(running)
                         else Some(old(running).value.(stale := true))
    {
      if w != running.value.windows[0] {
        running := Some(running.value.(stale := true));
      }
    }

    // shell_app_on_ws_switch, connected while there is a running state.
    method OnWorkspaceSwitch()
      requires running.Some?
      modifies this`running
      ensures running == Some(old(running).value.(stale := true))
    {
      running := Some(running.value.(stale := true));
    }

    // shell_app_get_windows: sorts the list if it is stale.
    method GetWindows(display: Display) returns (windows: seq<nat>)
      requires Sound(display.windows, state, running) && AllClose(display.windows)
      modifies this`running
      ensures Sound(display.windows, state, running)
      ensures running == if old(running).Some? && old(running).value.stale
                         then Some(old(running).value.(
                                windows := Sort(display.windows, display.active, old(running).value.windows),
                                stale := false))
                         else old(running)
      ensures Known(display.windows, WindowsOf(running)) && windows == Managed(display.windows, WindowsOf(running))
      ensures old(InOrder(display.windows, display.active, running)) ==>
                InOrder(display.windows, display.active, running)
                && windows == Managed(display.windows, Sort(display.windows, display.active, WindowsOf(old(running))))
    {
      if running == None {
        return [];
      }
      var r := running.value;
      SortSorts(display.windows, display.active, r.windows);
      SortedIsFresh(display.windows, display.active, r.windows);
      if r.stale {
        InterestingSort(display.windows, r.windows, Sort(display.windows, display.active, r.windows));
        DistinctMultiset(r.windows);
        DistinctMultiset(Sort(display.windows, display.active, r.windows));
        assert |multiset(r.windows)| > 0;
        running := Some(r.(windows := Sort(display.windows, display.active, r.windows), stale := false));
      }
      windows := Managed(display.windows, running.value.windows);
    }

    // _shell_app_handle_startup_sequence
    method HandleStartupSequence(completed: bool, workspace: int, display: Display, system: AppSystem,
                                 ghost apps: set<App>, ghost distinct: bool)
      requires Sound(display.windows, state, running) && this in apps && system.InStep(apps, distinct)
      modifies this`state, this`startedOnWorkspace, system, display`focus
      ensures Sound(display.windows, state, running) && system.InStep(apps, distinct)
      ensures state == if !completed then if old(state) == STOPPED then STARTING else old(state)
                       else if running.Some? then RUNNING else STOPPED
      ensures startedOnWorkspace == if completed then old(startedOnWorkspace) else workspace
      ensures display.focus == if !completed && old(state) == STOPPED then None else old(display.focus)
    {
      var starting := !completed;
      if starting && state == STOPPED {
        StateTransition(STARTING, system, apps, distinct);
        display.focus := None;
      }
      if starting {
        startedOnWorkspace := workspace;
      } else if running.Some? && running.value.windows != [] {
        StateTransition(RUNNING, system, apps, distinct);
      } else {
        StateTransition(STOPPED, system, apps, distinct);
      }
    }

    // shell_app_update_window_actions and shell_app_update_app_actions, which need a running state.
    method UpdateActions(w: nat, display: Display)
      requires running.Some? && w < |display.windows|
      modifies this`running
      ensures running.Some?
      ensures running.value == old(running).value.(
                actionsOf := if display.windows[w].hasObjectPath then Some(w) else old(running).value.actionsOf)
    {
      if display.windows[w].hasObjectPath {
        running := Some(running.value.(actionsOf := Some(w)));
      }
    }
  }

  // The windows that are not override-redirect, in order.
  function Managed(table: seq<Window>, xs: seq<nat>): seq<nat>
    requires Known(table, xs)
  {
    if xs == [] then []
    else (if table[xs[0]].overrideRedirect then [] else [xs[0]]) + Managed(table, xs[1..])
  }

  lemma NoneCounted(table: seq<Window>)
    ensures Counted(table, Running([], 0, false, None))
  {
  }

  lemma AddedCounted(table: seq<Window>, r: Running, w: nat)
    requires Counted(table, r) && w < |table| && w !in r.windows
    ensures
      var more := if table[w].skipTaskbar then 0 else 1;
      Counted(table, r.(windows := [w] + r.windows, interesting := r.interesting + more, stale := true))
  {
    assert ([w] + r.windows)[1..] == r.windows;
  }

  lemma RemovedCounted(table: seq<Window>, r: Running, w: nat)
    requires Counted(table, r) && w in r.windows
    ensures w < |table|
    ensures
      var less := if table[w].skipTaskbar then 0 else 1;
      less <= r.interesting
      && Counted(table, r.(windows := RemoveFirst(r.windows, w), interesting := r.interesting - less))
    ensures RemoveFirst(r.windows, w) == [] ==> r.interesting == if table[w].skipTaskbar then 0 else 1
  {
    InterestingRemove(table, r.windows, w);
    RemoveFirstDistinct(r.windows, w);
  }

  lemma SoundMeans(table: seq<Window>, state: State, running: Option<Running>)
    requires Sound(table, state, running)
    ensures state == RUNNING ==> running.Some?
    ensures Known(table, WindowsOf(running)) && Distinct(WindowsOf(running))
    ensures running.Some? ==> running.value.windows != []
  {
  }

  // One application entering or leaving the running set takes its id along.
  lemma IdsChange(running: set<App>, apps: set<App>, app: App)
    requires running <= apps && app in apps && IdsDistinct(apps)
    ensures IdsOf(running + {app}) == IdsOf(running) + IdOf(app)
    ensures IdsOf(running - {app}) == IdsOf(running) - if app in running then IdOf(app) else {}
  {
  }
}
