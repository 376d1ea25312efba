/**
  src/shell-app-cache.c: a cache of the installed applications and the folders' names, reloaded in a thread some time
  after the files change. Timers, threads and completions may come in any order.
 */
module AppCache {
  import opened Wrappers
  import opened Sequences

  // A desktop-directories file, with its translated name if it loads and has one.
  datatype Entry = Entry(name: string, translated: Option<string>)

  // What can be read: the applications, and one listing for each directory of folder files, the user's first.
  datatype Disk = Disk(infos: seq<string>, dirs: seq<seq<Entry>>)

  datatype CacheState = CacheState(infos: seq<string>, folders: map<string, string>)

  // ---------- folder names ----------

  // The first entry that gives the folder a name, if any.
  function FirstName(entries: seq<Entry>, name: string): Option<string> {
    if entries == [] then None
    else if entries[0].name == name && entries[0].translated.Some? then entries[0].translated
    else FirstName(entries[1..], name)
  }

  // The table gives exactly the first names.
  ghost predicate Names(folders: map<string, string>, entries: seq<Entry>) {
    forall name :: FirstName(entries, name) == if name in folders then Some(folders[name]) else None
  }

  lemma {:induction false} FirstNameAppend(entries: seq<Entry>, more: seq<Entry>, name: string)
    ensures FirstName(entries + more, name)
            == if FirstName(entries, name).Some? then FirstName(entries, name) else FirstName(more, name)
  {
    if entries == [] {
      assert entries + more == more;
    } else {
      FirstNameAppend(entries[1..], more, name);
      assert (entries + more)[1..] == entries[1..] + more;
    }
  }

  // A table is determined by the entries it was made from.
  lemma NamesUnique(f: map<string, string>, g: map<string, string>, entries: seq<Entry>)
    requires Names(f, entries) && Names(g, entries)
    ensures f == g
  {
    forall name
      ensures name in f <==> name in g
      ensures name in f && name in g ==> f[name] == g[name]
    {
      assert FirstName(entries, name) == if name in f then Some(f[name]) else None;
      assert FirstName(entries, name) == if name in g then Some(g[name]) else None;
    }
  }

  // The table with the entries of one more directory: first added wins.
  function Loaded(folders: map<string, string>, dir: seq<Entry>): map<string, string>
    decreases |dir|
  {
    if dir == [] then folders
    else
      var e := dir[0];
      var more := if e.name !in folders && e.translated.Some? then folders[e.name := e.translated.value] else folders;
      Loaded(more, dir[1..])
  }

  lemma {:induction false} LoadedNames(folders: map<string, string>, dir: seq<Entry>, before: seq<Entry>)
    requires Names(folders, before)
    ensures Names(Loaded(folders, dir), before + dir)
    decreases |dir|
  {
    if dir == [] {
      assert before + dir == before;
    } else {
      var e := dir[0];
      var more := if e.name !in folders && e.translated.Some? then folders[e.name := e.translated.value] else folders;
      forall name
        ensures FirstName(before + [e], name) == if name in more then Some(more[name]) else None
      {
        FirstNameAppend(before, [e], name);
      }
      LoadedNames(more, dir[1..], before + [e]);
      assert before + [e] + dir[1..] == before + dir;
    }
  }

  // load_folder
  method LoadFolder(folders: map<string, string>, dir: seq<Entry>) returns (out: map<string, string>)
    ensures out == Loaded(folders, dir)
  {
    out := folders;
    var i := 0;
    assert dir[0..] == dir;
    while i < |dir|
      invariant 0 <= i <= |dir|
      invariant Loaded(out, dir[i..]) == Loaded(folders, dir)
    {
      assert dir[i..][1..] == dir[i + 1..];
      if dir[i].name !in out && dir[i].translated.Some? {
        out := out[dir[i].name := dir[i].translated.value];
      }
      i := i + 1;
    }
  }

  // ---------- tasks ----------

  // How far a task's thread has come; `next` is the directory it reads next.
  datatype Stage =
    | Queued
    | Loading(infos: seq<string>, folders: map<string, string>, next: nat)
    | Returned(state: CacheState)
    | Delivered(result: Option<CacheState>)

  // `cancelled` is whether the task's cancellable has been cancelled.
  datatype Task = Task(cancelled: bool, stage: Stage)

  datatype Event =
    | FilesChange(disk: Disk)
    | ChangeSignalled
    | TimerFires
    | ThreadRuns(task: nat)
    | Completes(task: nat)

  // What the thread does next, with the files as they are.
  function NextStage(stage: Stage, disk: Disk): Stage {
    match stage
    case Queued => Loading(disk.infos, map[], 0)
    case Loading(infos, folders, next) =>
      if next < |disk.dirs| then Loading(infos, Loaded(folders, disk.dirs[next]), next + 1)
      else Returned(CacheState(infos, folders))
    case _ => stage
  }

  // What a task has read so far is what is there now.
  ghost predicate ReadFrom(stage: Stage, disk: Disk) {
    match stage
    case Queued => true
    case Loading(infos, folders, next) =>
      infos == disk.infos && next <= |disk.dirs| && Names(folders, Flatten(disk.dirs[..next]))
    case Returned(state) => state.infos == disk.infos && Names(state.folders, Flatten(disk.dirs))
    case Delivered(_) => true
  }

  // At most one task, the newest, is uncancelled.
  ghost predicate OneLive(tasks: seq<Task>, cancellable: Option<nat>) {
    && cancellable == (if tasks == [] then None else Some(|tasks| - 1))
    && forall i {:trigger tasks[i]} :: 0 <= i < |tasks| ==> (tasks[i].cancelled <==> i < |tasks| - 1)
  }

  // Snapshots are applied in the order their tasks started, and the cache holds the whole of the last one.
  ghost predicate OneSnapshot(tasks: seq<Task>, applied: seq<nat>, infos: seq<string>, folders: map<string, string>) {
    && Increasing(applied) && (forall k :: 0 <= k < |applied| ==> applied[k] < |tasks|)
    && (applied != [] ==> tasks[applied[|applied| - 1]].stage == Delivered(Some(CacheState(infos, folders))))
    && (tasks != [] && tasks[|tasks| - 1].stage.Delivered? ==> applied != [] && applied[|applied| - 1] == |tasks| - 1)
  }

  // A change that no task has seen is still awaited by the timer.
  ghost predicate Awaited(applied: seq<nat>, queued: bool, signals: nat, seen: seq<nat>, cacheSeen: nat) {
    && (forall i :: 0 <= i < |seen| ==> seen[i] <= signals)
    && (applied != [] ==> applied[|applied| - 1] < |seen|)
    && cacheSeen == (if applied == [] then 0 else seen[applied[|applied| - 1]])
    && (!queued ==> if seen == [] then signals == 0 else seen[|seen| - 1] == signals)
  }

  // What was read since the last signal is what is there.
  ghost predicate UpToDate(tasks: seq<Task>, signals: nat, seen: seq<nat>, cacheSeen: nat, disk: Disk,
                           infos: seq<string>, folders: map<string, string>)
    requires |seen| == |tasks|
  {
    && (forall i {:trigger tasks[i]} {:trigger seen[i]} :: 0 <= i < |tasks| && seen[i] == signals ==>
         ReadFrom(tasks[i].stage, disk))
    && (cacheSeen == signals ==> infos == disk.infos && Names(folders, Flatten(disk.dirs)))
  }

  predicate Pending(task: Task) {
    !task.cancelled && !task.stage.Delivered?
  }

  class Cache {
    var queuedUpdate: bool
    // The task whose cancellable the cache holds.
    var cancellable: Option<nat>
    var appInfos: seq<string>
    var folders: map<string, string>
    // Every task started, in order.
    var tasks: seq<Task>
    var disk: Disk
    // How many changes have been signalled, and how many had been when each task started and when the cache was read.
    ghost var signals: nat
    ghost var seen: seq<nat>
    ghost var cacheSeen: nat
    // Nothing changed since the last signal.
    ghost var settled: bool
    // The tasks whose snapshot was applied, in that order.
    ghost var applied: seq<nat>

    ghost predicate Valid()
      reads this
    {
      && |seen| == |tasks| && OneLive(tasks, cancellable) && OneSnapshot(tasks, applied, appInfos, folders)
      && Awaited(applied, queuedUpdate, signals, seen, cacheSeen)
      && (settled ==> UpToDate(tasks, signals, seen, cacheSeen, disk, appInfos, folders))
    }

    // No timer is set and no task is still to deliver.
    predicate Idle()
      reads this
    {
      !queuedUpdate && forall i :: 0 <= i < |tasks| ==> !Pending(tasks[i])
    }

    // When nothing is under way the cache was read after the last signalled change; so if nothing changed after that
    // signal the cache is what is there.
    lemma IdleIsCurrent()
      requires Valid() && Idle()
      ensures cacheSeen == signals
      ensures settled ==> appInfos == disk.infos && Names(folders, Flatten(disk.dirs))
    {
      if tasks != [] {
        assert !Pending(tasks[|tasks| - 1]);
      }
    }

    // shell_app_cache_init
    constructor (disk: Disk)
      ensures Valid() && this.disk == disk && tasks == [] && !queuedUpdate && signals == 0 && settled
    {
      queuedUpdate, cancellable, tasks, applied := false, None, [], [];
      this.disk := disk;
      signals, seen, cacheSeen, settled := 0, [], 0, true;
      new;
      folders := LoadFolders();
      appInfos := disk.infos;
    }

    // load_folders, with the files as they are.
    method LoadFolders() returns (out: map<string, string>)
      ensures Names(out, Flatten(disk.dirs))
    {
      out := map[];
      var i := 0;
      while i < |disk.dirs|
        invariant 0 <= i <= |disk.dirs|
        invariant Names(out, Flatten(disk.dirs[..i]))
      {
        FlattenStep(disk.dirs, i);
        LoadedNames(out, disk.dirs[i], Flatten(disk.dirs[..i]));
        out := LoadFolder(out, disk.dirs[i]);
        i := i + 1;
      }
      assert disk.dirs[..i] == disk.dirs;
    }

    method FilesChange(to: Disk)
      requires Valid()
      modifies this`disk, this`settled
      ensures Valid() && disk == to && !settled
    {
      disk := to;
      settled := false;
    }

    // shell_app_cache_queue_update: a timer already set is replaced.
    method QueueUpdate()
      requires Valid()
      modifies this`queuedUpdate, this`signals, this`settled
      ensures Valid() && queuedUpdate && signals == old(signals) + 1 && settled
    {
      queuedUpdate := true;
      signals, settled := signals + 1, true;
    }

    // shell_app_cache_do_update
    method DoUpdate()
      requires Valid() && queuedUpdate
      modifies this`queuedUpdate, this`cancellable, this`tasks, this`seen
      ensures Valid() && !queuedUpdate && seen == old(seen) + [signals] && cancellable == Some(|old(tasks)|)
      ensures tasks == (if old(cancellable).Some? && old(cancellable).value < |old(tasks)| then
                          var i := old(cancellable).value; old(tasks)[i := old(tasks)[i].(cancelled := true)]
                        else old(tasks)) + [Task(false, Queued)]
    {
      hide Names, Increasing;
      queuedUpdate := false;
      if cancellable.Some? {
        var i := cancellable.value;
        tasks := tasks[i := tasks[i].(cancelled := true)];
      }
      cancellable := Some(|tasks|);
      tasks := tasks + [Task(false, Queued)];
      seen := seen + [signals];
    }

    // The next thing shell_app_cache_worker does in the thread of task i; the files may change between two of them.
    method ThreadRuns(i: nat)
      requires Valid() && i < |tasks| && (tasks[i].stage.Queued? || tasks[i].stage.Loading?)
      modifies this`tasks
      ensures Valid()
      ensures tasks == old(tasks)[i := old(tasks)[i].(stage := NextStage(old(tasks)[i].stage, disk))]
    {
      hide OneLive, OneSnapshot, Awaited, Names;
      ghost var tasks0 := tasks;
      var stage := tasks[i].stage;
      var stage': Stage;
      if stage.Queued? {
        stage' := Loading(disk.infos, map[], 0);
        assert disk.dirs[..0] == [];
        NoNames();
      } else if stage.next < |disk.dirs| {
        if settled && seen[i] == signals {
          FlattenStep(disk.dirs, stage.next);
          LoadedNames(stage.folders, disk.dirs[stage.next], Flatten(disk.dirs[..stage.next]));
        }
        var out := LoadFolder(stage.folders, disk.dirs[stage.next]);
        stage' := Loading(stage.infos, out, stage.next + 1);
      } else {
        stage' := Returned(CacheState(stage.infos, stage.folders));
        assert stage.next == |disk.dirs| ==> disk.dirs[..stage.next] == disk.dirs;
      }
      tasks := tasks[i := tasks[i].(stage := stage')];
      StageMoves(tasks0, i, stage', cancellable, applied, appInfos, folders);
    }

    // apply_update_cb: a task whose cancellable was cancelled by now, even before its thread ran, changes nothing.
    method ApplyUpdate(i: nat)
      requires Valid() && i < |tasks|
      requires tasks[i].stage.Returned? || (tasks[i].stage.Queued? && tasks[i].cancelled)
      modifies this`tasks, this`appInfos, this`folders, this`applied, this`cacheSeen
      ensures Valid()
      ensures
        var t := old(tasks)[i];
        if t.cancelled then
          && appInfos == old(appInfos) && folders == old(folders) && applied == old(applied)
          && cacheSeen == old(cacheSeen) && tasks == old(tasks)[i := t.(stage := Delivered(None))]
        else
          && CacheState(appInfos, folders) == t.stage.state && applied == old(applied) + [i]
          && cacheSeen == seen[i] && tasks == old(tasks)[i := t.(stage := Delivered(Some(t.stage.state)))]
    {
      hide Names;
      if tasks[i].cancelled {
        tasks := tasks[i := tasks[i].(stage := Delivered(None))];
        return;
      }
      var state := tasks[i].stage.state;
      appInfos := state.infos;
      folders := state.folders;
      tasks := tasks[i := tasks[i].(stage := Delivered(Some(state)))];
      applied, cacheSeen := applied + [i], seen[i];
    }

    // Whatever happens, in whatever order; what cannot happen now is passed over.
    method Run(events: seq<Event>)
      requires Valid()
      modifies this
      ensures Valid() && (settled <==> SettledAfter(old(settled), events))
      ensures signals == old(signals) + Signals(events)
    {
      hide OneLive, OneSnapshot, Awaited, UpToDate;
      for k := 0 to |events|
        invariant Valid() && (settled <==> SettledAfter(old(settled), events[..k]))
        invariant signals == old(signals) + Signals(events[..k])
      {
        assert events[..k + 1][..k] == events[..k];
        match events[k] {
          case FilesChange(to) => FilesChange(to);
          case ChangeSignalled => QueueUpdate();
          case TimerFires =>
            if queuedUpdate {
              DoUpdate();
            }
          case ThreadRuns(i) =>
            if i < |tasks| && (tasks[i].stage.Queued? || tasks[i].stage.Loading?) {
              ThreadRuns(i);
            }
          case Completes(i) =>
            if i < |tasks| && (tasks[i].stage.Returned? || (tasks[i].stage.Queued? && tasks[i].cancelled)) {
              ApplyUpdate(i);
            }
        }
      }
      assert events[..|events|] == events;
    }
  }

  // Whether nothing has changed since the last signal, after these events.
  predicate SettledAfter(settled: bool, events: seq<Event>) {
    if events == [] then settled
    else match events[|events| - 1]
      case FilesChange(_) => false
      case ChangeSignalled => true
      case _ => SettledAfter(settled, events[..|events| - 1])
  }

  function Signals(events: seq<Event>): nat {
    if events == [] then 0
    else Signals(events[..|events| - 1]) + if events[|events| - 1].ChangeSignalled? then 1 else 0
  }

  /**
    Every run from the start: once nothing is under way, and if no file changed after the last signal, the cache is what
    is there.
   */
  method RunFromStart(disk: Disk, events: seq<Event>) returns (cache: Cache)
    ensures fresh(cache) && cache.Valid()
    ensures cache.Idle() && SettledAfter(true, events) ==>
              cache.appInfos == cache.disk.infos && Names(cache.folders, Flatten(cache.disk.dirs))
  {
    cache := new Cache(disk);
    cache.Run(events);
    if cache.Idle() {
      cache.IdleIsCurrent();
    }
  }

  lemma NoNames()
    ensures Names(map[], [])
  {
  }

  // A task that has not delivered moves on without delivering a snapshot.
  lemma StageMoves(tasks: seq<Task>, i: nat, stage: Stage, cancellable: Option<nat>, applied: seq<nat>,
                   infos: seq<string>, folders: map<string, string>)
    requires OneLive(tasks, cancellable) && OneSnapshot(tasks, applied, infos, folders)
    requires i < |tasks| && !tasks[i].stage.Delivered? && (stage.Delivered? ==> tasks[i].cancelled)
    ensures
      var tasks' := tasks[i := tasks[i].(stage := stage)];
      OneLive(tasks', cancellable) && OneSnapshot(tasks', applied, infos, folders)
  {
  }

  lemma FlattenStep(dirs: seq<seq<Entry>>, i: nat)
    requires i < |dirs|
    ensures Flatten(dirs[..i + 1]) == Flatten(dirs[..i]) + dirs[i]
  {
    assert dirs[..i + 1][..i] == dirs[..i];
  }
}
