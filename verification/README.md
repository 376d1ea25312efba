# GNOME Shell: verified models of its state machines, codecs and caches

GNOME Shell's C and JavaScript code holds a number of small algorithms whose correctness depends on more than one
function at a time: reference-counted holds that release each other, a binary log and its replay, tables and counters
kept by three objects for each other, requests that complete in any order. This project models them in Dafny and proves
what each keeps over whole runs.

- `BatchTasks`: the task, hold and batch objects of the login dialog. Counted holds, release handlers that re-enter the
  batches, nesting and cancellation are shown to refine an algebra of sequence and join.
- `PerfLogModel`, `PerfLog`, `Bytes`: the performance log. The writer and the replay are printer and parser of the same
  bytes; backward clock steps are accounted for exactly; unchanged statistics are dropped without loss.
- `ActionMuxer`, `ActionNames`, `PrimaryAccels`: the action muxer. After every change of groups, parents and observers
  each observer knows what a query would answer, exactly as long as no prefix is used twice along a parent chain;
  registrations, list entries and weak references agree. Observers know the accelerators after every change of
  those; after a change of parent, exactly which do.
- `SecureTextBuffer`, `Utf8`: the password entry's buffer refines a sequence of characters.
- `Sequences`, `Wrappers`: lists and optional values, as used throughout.
- `WindowOrder`, `Apps`, `WindowTracker`, `AppLookup`: windows, applications and the application system, over every
  order of window and application events.
- `AppCache`, `KeyringSaves`, `NetworkAgent`, `PolkitAgent`: asynchronous protocols with completions in any order.
- `BlurEffect`, `Screenshot`: reuse of framebuffers, and pixel conversion over strided buffers.

Calls into libraries and the outside world are parameters or steps that may happen at any time: times, random choices of
iteration order, what a callback does, whether an allocation succeeds, what the keyring finds, which application a
window's class points to. C structs and JavaScript objects that refer to each other in cycles (holds and batches, muxers
and groups, requests and their callbacks) are records in tables, and a reference is an index; the log, its blocks, the
text buffer, the applications, the application system, the display and the tracker are heap objects.

Where the code falls short of what one would expect, a member shows it and another says exactly when:

- views of a muxer's observers: `ActionMuxer.World.Mislead`, `ActionMuxer.SharedPrefixUnsafe`; `ActionMuxer.RemovalExact`,
  `ActionMuxer.InsertionExact`, `ActionMuxer.ParentExact` and `ActionMuxer.RightExactlyIfDisjoint`
- accelerators after a change of parent: `PrimaryAccels.PairDrops`; `PrimaryAccels.Accelerators.SetParent`
- the order of windows by time: `WindowOrder.WrappedTimesMisorder`; `WindowOrder.CompareExact`
- lists not marked stale: `WindowTracker.DisturbedList`; `WindowOrder.MovedExact`, `WindowTracker.Tracker.AddTo`,
  `WindowTracker.Tracker.WindowCreated` and `WindowTracker.Tracker.PropertiesChanged`
- statistics on record: `PerfLog.OwnRecordStands`; `PerfLog.Log.Collect`
- replayed times: `PerfLog.LateCollection`; `PerfLogModel.ExactIffOrdered` and `PerfLog.Log.CollectBackward`
- desktop files that should be shown: `AppLookup.HiddenMatchDisplaces`; `AppLookup.ShownWinsExactly`
- framebuffers kept: `BlurEffect.StaleAfterFailure`; `BlurEffect.UpdateAgain`
- late answers to a password dialog: `NetworkAgent.ReplacedWhileAsked`; `NetworkAgent.Agent.AskedUnlessSearching`

`dafny verify dfyconfig.toml` checks everything.

## Model

| member | source | states |
|---|---|---|
| BatchTasks.RefinesAlgebra | js/gdm/batch.js:69-204 | At rest, a batch that was run has started exactly the tasks sequence and join would start given the holds released so far, each once, and its hold has emitted `release`, once, exactly when the whole tree below is done |
| BatchTasks.ReleasedIffDone | js/gdm/batch.js:136-151 | The hold of a started batch is released exactly when every task of the tree below is done |
| BatchTasks.StartedRan | js/gdm/batch.js:125-151 | Every task that sequence and join start has had its `run()` called |
| BatchTasks.RanStarted | js/gdm/batch.js:125-151 | No other task has |
| BatchTasks.NoneRan | js/gdm/batch.js:125-151 | Nothing below a task that was not reached has run |
| BatchTasks.CancelStops | js/gdm/batch.js:169-171 | After `cancel()` the tasks that remain are those up to the current index, and the batch is done as soon as the tasks it has started are, whatever holds are released later |
| BatchTasks.CancelThenDrive | js/gdm/batch.js:169-171 | Whatever a client does after cancelling: no task of the batch past the current one is ever run, in the trace of the whole run |
| BatchTasks.NeverPastTasks | js/gdm/batch.js:129-134 | At rest a batch has never run a task from the end of its list on |
| BatchTasks.CancelKeeps | js/gdm/batch.js:169-171 | Cancelling keeps the invariant of resting states, so that the refinement holds of later calls too |
| BatchTasks.DropKeeps | js/gdm/batch.js:93-98 | One acquisition less: what every waiting batch is still owed by the emission is accounted for |
| BatchTasks.GainKeeps | js/gdm/batch.js:76-80 | One acquisition more by a caller keeps the invariant |
| BatchTasks.ToldKeeps | js/gdm/batch.js:86-90 | A release handler that disconnects itself leaves its batch owing the call the handler makes next |
| BatchTasks.BeginKeeps | js/gdm/batch.js:153-159 | Starting a batch with a hold of its own keeps the invariant of all others |
| BatchTasks.LogRunKeeps | js/gdm/batch.js:129-134 | Running a task keeps the invariant while the batch is between running and waiting for it |
| BatchTasks.LinkConcurrentKeeps | js/gdm/batch.js:175-179 | Waiting for a concurrent task accounts for exactly one acquisition |
| BatchTasks.LinkConsecutiveKeeps | js/gdm/batch.js:192-198 | Waiting for a consecutive task leaves the batch with exactly one handler to advance it |
| BatchTasks.AdvanceKeeps | js/gdm/batch.js:140-151 | Moving to the next index keeps the invariant |
| BatchTasks.FinishKeeps | js/gdm/batch.js:143-148 | Past the last task only the release of the batch's own hold is outstanding |
| BatchTasks.ReleasedAfterDrop | js/gdm/batch.js:93-98 | A caller's release frees its own hold, if it was the last acquisition, and no other hold of a caller |
| BatchTasks.Runtime.Release | js/gdm/batch.js:93-98 | `release()` with everything its emission calls re-entrantly: every batch keeps its invariant and nothing outside the batches waiting changes |
| BatchTasks.Runtime.Invoke | js/gdm/batch.js:87-90 | One handler called by the emission |
| BatchTasks.Runtime.Acquire | js/gdm/batch.js:76-80 | Throws on a released hold, else one acquisition more |
| BatchTasks.Runtime.AcquireUntilAfter | js/gdm/batch.js:82-91 | Acquires and connects unless the other hold is released already |
| BatchTasks.Runtime.NextTask | js/gdm/batch.js:140-151 | Advances, and finishes past the last task |
| BatchTasks.Runtime.Process | js/gdm/batch.js:125-127 | Dispatch to the class of the batch |
| BatchTasks.Runtime.ProcessConcurrent | js/gdm/batch.js:174-186 | Runs the task, waits for it on the side, goes on |
| BatchTasks.Runtime.ProcessConsecutive | js/gdm/batch.js:188-204 | Runs the task, and goes on only once it is not inhibiting |
| BatchTasks.Runtime.RunTask | js/gdm/batch.js:129-134 | Null past the end, else the hold the task returned |
| BatchTasks.Runtime.Run | js/gdm/batch.js:153-167 | Starts a batch; returns its hold, which may be released already |
| BatchTasks.Runtime.NewHold | js/gdm/batch.js:70-74 | A new hold is acquired once |
| BatchTasks.Runtime.NewBatch | js/gdm/batch.js:106-123 | A new batch keeps the refinement of all others |
| BatchTasks.Runtime.RunRoot | js/gdm/batch.js:153-167 | Running a batch from outside ends in a state the refinement holds of |
| BatchTasks.Runtime.AcquireOwn | js/gdm/batch.js:76-80 | A caller acquires a hold of its own |
| BatchTasks.Runtime.ReleaseOwn | js/gdm/batch.js:93-98 | A caller releases a hold of its own, in any order with other releases |
| BatchTasks.Runtime.Cancel | js/gdm/batch.js:169-171 | Keeps the tasks up to the current one |
| BatchTasks.Drive | js/gdm/batch.js:69-204 | Every sequence of client calls, from nothing, ends in a state the refinement holds of |
| BatchTasks.DriveOn | js/gdm/batch.js:69-204 | So from any such state; no batch gains tasks on the way |
| BatchTasks.Serve | js/gdm/batch.js:69-204 | One call of a client |
| PerfLogModel.ReplayUndoesRecording | src/shell-perf-log.c:325-765 | Replaying the records of any accepted events, at any times, reports each of them in order, at its time plus its drift; the replay clock ends at the last time plus the last drift |
| PerfLogModel.OrderedReplayIsExact | src/shell-perf-log.c:325-765 | With times that never go back, that is the accepted (time, name, signature, argument) sequence exactly |
| PerfLogModel.ExactIffOrdered | src/shell-perf-log.c:325-765 | And only then |
| PerfLogModel.OrderedDrift | src/shell-perf-log.c:346-359 | Times that never go back leave no drift |
| PerfLogModel.DriftZeroIff | src/shell-perf-log.c:346-359 | The drift is never negative, and zero exactly when no step since the last perf.setTime record went back |
| PerfLogModel.BackwardStepShows | src/shell-perf-log.c:354-359 | A step back makes the replayed time late by the whole step, on top of the drift there was |
| PerfLogModel.DriftIffLater | src/shell-perf-log.c:346-359 | Events from `time` on that end at `time`, on a log in step: the replay is late exactly if one of them is later |
| PerfLogModel.LaterEventDrifts | src/shell-perf-log.c:346-359 | After an event later than `time` the log is past `time` or its replay late |
| PerfLogModel.ReplayStep | src/shell-perf-log.c:346-382 | One accepted event more: what its records, escape included, add to the replay |
| PerfLogModel.RecordedOk | src/shell-perf-log.c:346-383 | Every record written fits the fields of a record |
| PerfLogModel.ParsePrint | src/shell-perf-log.c:710-713 | The header a replay reads is the one written, whatever follows |
| PerfLogModel.ParsePayload | src/shell-perf-log.c:729-759 | The argument a replay reads is the one written, and it ends where the record does |
| PerfLog.Block.Put | src/shell-perf-log.c:373-382 | Appends one record to a block and nothing else |
| PerfLog.Log.RecordEvent | src/shell-perf-log.c:325-383 | Stores nothing when disabled or oversize, else the record, after an escape record for a large jump; no block exceeds 8192 bytes and none holds part of a record |
| PerfLog.Log.RoomFor | src/shell-perf-log.c:361-371 | The last block if the record fits in it, else a new one |
| PerfLog.Log.Append | src/shell-perf-log.c:361-382 | The records stored are those before and the new one |
| PerfLog.Log.Accept | src/shell-perf-log.c:325-383 | The stored records are those of the accepted events; every statistic whose latest record a collection made stays in step, and which events those are not (`foreign`) changes just by this event |
| PerfLog.Log.constructor | src/shell-perf-log.c:129-160 | Defines the two builtin events; nothing is recorded, and no event by anyone but a collection |
| PerfLog.Log.SetEnabled | src/shell-perf-log.c:204-225 | Enabling or disabling keeps everything |
| PerfLog.Log.DefineEvent | src/shell-perf-log.c:228-274 | Which definitions are refused, and the id of a new event |
| PerfLog.Log.RecordNamed | src/shell-perf-log.c:393-465 | Records an event by name if it is defined with that signature; only then is its latest record a caller's |
| PerfLog.Log.DefineStatistic | src/shell-perf-log.c:486-513 | A statistic is an event with a numeric signature; exactly when the definition is refused |
| PerfLog.Log.UpdateStatistic | src/shell-perf-log.c:547-582 | Sets the current value of a statistic known with this signature |
| PerfLog.Log.RecordIfChanged | src/shell-perf-log.c:641-673 | Records a statistic that has a value not recorded yet; its latest record is a collection's from then on |
| PerfLog.Log.RecordChanged | src/shell-perf-log.c:639-674 | Records exactly the statistics that changed, in order |
| PerfLog.Log.RunCallbacks | src/shell-perf-log.c:629-635 | Callbacks update statistics and record events: exactly which, in order, and so whose latest record is a caller's |
| PerfLog.Log.RunCallback | src/shell-perf-log.c:629-635 | One thing a callback does |
| PerfLog.Log.Collect | src/shell-perf-log.c:620-679 | What the callbacks recorded, then the changed statistics and the closing record, stamped with the time from before the callbacks; at the closing record the latest earlier record of every initialised statistic has its value at that collection, and stays so, across any enabling history, unless a caller recorded the statistic's event itself since a collection last did; with that, exactly if the statistic changed or was on record before |
| PerfLog.Log.CollectBackward | src/shell-perf-log.c:619-679 | Collecting makes time go back: on a log in step the replayed time of the closing record is late exactly if a callback recorded an event later than the time read before the callbacks |
| PerfLog.LateCollection | src/shell-perf-log.c:619-679 | One run in which it does |
| PerfLog.Log.Mark | src/shell-perf-log.c:676-678 | The closing record, stamped with the time from before the callbacks; it is nobody else's |
| PerfLog.ValuesOnRecord | src/shell-perf-log.c:639-674 | Once told, every statistic's latest record has its value |
| PerfLog.SnapshotAdded | src/shell-perf-log.c:676-678 | What a collection told stays told |
| PerfLog.CollectedIs | src/shell-perf-log.c:639-674 | Exactly which statistics are on record after a collection: those that changed, and those that were before |
| PerfLog.OwnRecordStands | src/shell-perf-log.c:641-673 | A run in which one is not: a caller recorded the event of a statistic that does not change any more |
| PerfLog.Log.Replay | src/shell-perf-log.c:691-765 | The bytes of all blocks, read back, give every accepted event at its time plus its drift |
| PerfLog.ReplayBlock | src/shell-perf-log.c:700-763 | The cursor of a block ends exactly at its byte count |
| PerfLog.ReadRecord | src/shell-perf-log.c:710-713 | Reads the header of the record at the cursor |
| PerfLog.ReadArg | src/shell-perf-log.c:727-759 | Reads the argument by its signature |
| Bytes.DecodeEncode | src/shell-perf-log.c:375-378 | Copying a number in and out of memory keeps it |
| Bytes.DecodeEncodeSigned | src/shell-perf-log.c:736-749 | So for signed numbers |
| Bytes.CopyInto | src/shell-perf-log.c:375-380 | memcpy |
| Bytes.MoveWithin | src/shell-secure-text-buffer.c:111 | memmove, with ranges that may overlap |
| Utf8.DecodeEncodeAll | src/shell-secure-text-buffer.c:46-56 | The bytes are valid UTF-8 (section 3 of RFC 3629) and determine the characters |
| Utf8.DecodeEncodeChar | src/shell-secure-text-buffer.c:46-56 | One character, whatever follows |
| Utf8.EncodeSplit | src/shell-secure-text-buffer.c:109-112 | A text splits at a character into the forms of its parts |
| Utf8.StartsAreAt | src/shell-secure-text-buffer.c:99 | The bytes that start a character are the characters' offsets |
| Utf8.OffsetToPointer | src/shell-secure-text-buffer.c:75 | g_utf8_offset_to_pointer: the offset of a character |
| Utf8.FindPrevChar | src/shell-secure-text-buffer.c:99 | g_utf8_find_prev_char: the start of the last character before an offset |
| Utf8.StrLen | src/shell-secure-text-buffer.c:100 | g_utf8_strlen: the characters that end by an offset |
| SecureTextBuffer.Buffer.constructor | src/shell-secure-text-buffer.c:151-155 | An empty buffer with no memory |
| SecureTextBuffer.Buffer.GetText | src/shell-secure-text-buffer.c:47-56 | The bytes are the UTF-8 form of the characters |
| SecureTextBuffer.Buffer.GetLength | src/shell-secure-text-buffer.c:59-63 | The number of characters |
| SecureTextBuffer.Buffer.Grow | src/shell-secure-text-buffer.c:78-105 | The growth loop ends; what is kept is the longest prefix of whole characters that fits under the cap |
| SecureTextBuffer.Buffer.Realloc | src/shell-secure-text-buffer.c:106 | Keeps the bytes |
| SecureTextBuffer.Buffer.InsertText | src/shell-secure-text-buffer.c:65-121 | Splices in the longest prefix of the characters that fits, returns its length, and keeps size, byte count, character count and the NUL in step |
| SecureTextBuffer.Buffer.Splice | src/shell-secure-text-buffer.c:109-117 | The overlapping moves |
| SecureTextBuffer.Buffer.MakeRoom | src/shell-secure-text-buffer.c:111-112 | The bytes behind move up, and the new ones come in |
| SecureTextBuffer.Buffer.DeleteText | src/shell-secure-text-buffer.c:123-149 | Removes the clamped range of characters |
| SecureTextBuffer.Buffer.CutOut | src/shell-secure-text-buffer.c:141-143 | The move that closes the gap |
| ActionNames.SplitName | src/gtkactionmuxer.c:147-168 | A name splits at its first dot |
| ActionNames.SplitFull | src/gtkactionmuxer.c:105-126 | The prefix of a full name is recovered whatever the action is called |
| ActionMuxer.World.Step | src/gtkactionmuxer.c:105-882 | Every call, on any muxer tree whose prefixes are disjoint along each parent chain, leaves every observer's view what a query would answer, and the registrations counted |
| ActionMuxer.World.Mislead | src/gtkactionmuxer.c:702-768 | From any state with a prefix used twice along a chain, three calls that leave all prefixes as they are leave an observer with a wrong view |
| ActionMuxer.RightExactlyIfDisjoint | src/gtkactionmuxer.c:746-768 | Views stay right on every removal, whatever the groups hold and whoever watches, exactly when no prefix is used twice along a chain |
| ActionMuxer.DisjointUnlessShared | src/gtkactionmuxer.c:146-168 | No prefix is used twice along a chain exactly when there is no nearest pair of muxers that share one |
| ActionMuxer.World.QueryAction | src/gtkactionmuxer.c:376-400 | The own group for the prefix decides, else the parent |
| ActionMuxer.World.Notify | src/gtkactionmuxer.c:170-340 | A notification reaches the observers of the action at the muxer and at all below, each once |
| ActionMuxer.World.TellWatchers | src/gtkactionmuxer.c:179-182 | Every observer in the list is told |
| ActionMuxer.World.EmitGroupChange | src/gtkactionmuxer.c:184-330 | The handlers of a group's signal bring all views in step |
| ActionMuxer.World.AddAction | src/gtkactionmuxer.c:282-293 | A group gains an action |
| ActionMuxer.World.RemoveAction | src/gtkactionmuxer.c:319-330 | A group loses an action |
| ActionMuxer.World.SetActionEnabled | src/gtkactionmuxer.c:185-197 | An action is enabled or disabled |
| ActionMuxer.World.SetActionState | src/gtkactionmuxer.c:225-237 | An action's state changes |
| ActionMuxer.World.TellActions | src/gtkactionmuxer.c:721-724 | Exactly what every observer knows after a loop over a group's actions, on any tree |
| ActionMuxer.World.RemoveGroup | src/gtkactionmuxer.c:747-768 | On any tree: what every observer knows afterwards; views that were right stay so exactly if the removal is safe, which with disjoint prefixes it always is |
| ActionMuxer.World.TakeOut | src/gtkactionmuxer.c:755-767 | The same for a group that is there |
| ActionMuxer.World.InsertGroup | src/gtkactionmuxer.c:703-734 | On any tree: what every observer knows afterwards; prefixes stay disjoint exactly if this one is free above and below, and then views stay right; a group under the same prefix is replaced |
| ActionMuxer.World.Bind | src/gtkactionmuxer.c:714-733 | Inserting under a prefix not in use: views that were right stay so exactly if the insertion is safe |
| ActionMuxer.World.SetParent | src/gtkactionmuxer.c:823-882 | On any tree: what every observer knows afterwards, on the muxer and all below; views that were right stay so exactly if the change is safe, and with disjoint prefixes, before and after, it is |
| ActionMuxer.World.Detach | src/gtkactionmuxer.c:832-853 | On any tree: the old parent's actions are told as removed before the link is cut |
| ActionMuxer.World.Attach | src/gtkactionmuxer.c:853-879 | On any tree: the new parent's actions are told as added before its signals are connected; prefixes stay disjoint exactly if none is used on both sides |
| ActionMuxer.World.TellParentActions | src/gtkactionmuxer.c:837-865 | Exactly what every observer knows after the loop over a parent's actions |
| ActionMuxer.World.ListActions | src/gtkactionmuxer.c:129-144 | The names of the groups of a muxer and those above it; with disjoint prefixes exactly the names a query answers, without duplicates |
| ActionMuxer.World.AppendOwn | src/gtkactionmuxer.c:138-140 | The names of the muxer's own groups |
| ActionMuxer.World.AppendGroupActions | src/gtkactionmuxer.c:106-126 | The full names of a group's actions |
| ActionMuxer.World.RegisterObserver | src/gtkactionmuxer.c:500-521 | One place in the list, one weak reference and one registration more; the entry is made if there was none |
| ActionMuxer.World.UnregisterObserver | src/gtkactionmuxer.c:524-534 | One less of each; an emptied entry goes |
| ActionMuxer.World.UnregisterInternal | src/gtkactionmuxer.c:472-488 | Takes the first occurrence out, and the entry with the last; the address it is handed is that of a live entry |
| ActionMuxer.World.FinalizeObserver | src/gtkactionmuxer.c:491-497 | A finalised observer is in no list, has no weak reference and counts as registered nowhere; no reference is to an entry already freed |
| ActionMuxer.World.constructor | src/gtkactionmuxer.c:776-779 | Nothing is registered and every view is right to begin with |
| ActionMuxer.World.NewMuxer | src/gtkactionmuxer.c:776-779 | A new muxer keeps all views right |
| ActionMuxer.World.NewGroup | src/gtkactionmuxer.c:92-103 | A group that is in no muxer keeps all views right |
| ActionMuxer.QueryOwner | src/gtkactionmuxer.c:375-400 | With disjoint prefixes the one group for a prefix answers for its muxer and all below |
| ActionMuxer.QueryOneGroupMore | src/gtkactionmuxer.c:702-768 | Inserting or removing a group changes the answers for its prefix, at its muxer and below, and no others |
| ActionMuxer.QueryShadowed | src/gtkactionmuxer.c:375-400 | However prefixes are used: a group answers where no other below it does, and hides what is above it |
| ActionMuxer.UnhiddenAnswers | src/gtkactionmuxer.c:375-400 | The answer where nothing hides the group |
| ActionMuxer.RemovalExact | src/gtkactionmuxer.c:746-768 | For one observer at the muxer or below, exactly when its view is right after a removal: where the group answered nothing above may answer, and where another group answers it must not have the action |
| ActionMuxer.InsertionExact | src/gtkactionmuxer.c:702-734 | For one observer at the muxer or below, exactly when its view is right after an insertion |
| ActionMuxer.DisjointIsSafe | src/gtkactionmuxer.c:702-768 | With disjoint prefixes both conditions hold |
| ActionMuxer.PutBelowDisjoint | src/gtkactionmuxer.c:853-879 | A new parent keeps prefixes disjoint exactly if no prefix is used on both sides |
| ActionMuxer.QueryCut | src/gtkactionmuxer.c:822-882 | Cutting or making a parent link changes only answers at the muxer and below, of names no group on the way has the prefix of |
| ActionMuxer.ListedAnswers | src/gtkactionmuxer.c:128-144 | What is answered is listed, and with disjoint prefixes what is listed is answered |
| ActionMuxer.ParentExact | src/gtkactionmuxer.c:822-882 | For one observer, exactly when its view is right after a change of parent: where a group on the way has the prefix, what it is told from above must be its own answer, and what it is told is gone must not be answered |
| ActionMuxer.ParentTold | src/gtkactionmuxer.c:832-879 | Telling what the old parent listed and then what the new one lists |
| ActionMuxer.DisjointParentSafe | src/gtkactionmuxer.c:822-882 | With disjoint prefixes, before and after, every change of parent is safe |
| ActionMuxer.ListStep | src/gtkactionmuxer.c:128-144 | With disjoint prefixes each muxer up the chain adds only new names |
| ActionMuxer.TellStep | src/gtkactionmuxer.c:170-340 | Sending one pending notification brings just the views it covers up to date |
| ActionMuxer.GroupTells | src/gtkactionmuxer.c:184-330 | A group handler tells what changed, and no later handler tells the same observers again |
| ActionMuxer.ToldByAll | src/gtkactionmuxer.c:170-340 | Telling all children tells everything below |
| ActionMuxer.ChildrenApart | src/gtkactionmuxer.c:869-878 | No muxer is below two children of another |
| ActionMuxer.SharedPrefixMisleads | src/gtkactionmuxer.c:250-303 | An example of `ActionMuxer.World.Mislead` with two muxers: the child's group hides the action, yet its observers are told it was added |
| ActionMuxer.SharedPrefixUnsafe | src/gtkactionmuxer.c:853-879 | The same two muxers: a change of parent that is not safe |
| PrimaryAccels.ActionOfPrinted | src/gtkactionmuxer.c:920-945 | The action of a printed action and target is what follows the last bar |
| PrimaryAccels.AccelUnlessReached | src/gtkactionmuxer.c:884-918 | A change of one entry shows exactly where it reaches: down to tables that have the entry themselves |
| PrimaryAccels.ReachedExactly | src/gtkactionmuxer.c:360-373 | What a change reaches is the muxer and what it reaches through children without an entry of their own |
| PrimaryAccels.Accelerators.constructor | src/gtkactionmuxer.c:776-779 | Without accelerators nothing is known of any |
| PrimaryAccels.Accelerators.GetPrimaryAccel | src/gtkactionmuxer.c:901-918 | The own table before the parent's |
| PrimaryAccels.Accelerators.PrimaryAccelChanged | src/gtkactionmuxer.c:342-373 | Exactly the observers it reaches ask again |
| PrimaryAccels.Accelerators.SetPrimaryAccel | src/gtkactionmuxer.c:885-898 | Afterwards every observer, on every muxer, knows the accelerator a query would give |
| PrimaryAccels.Accelerators.NewMuxer | src/gtkactionmuxer.c:776-779 | A new muxer keeps all this |
| PrimaryAccels.Accelerators.RegisterObserver | src/gtkactionmuxer.c:500-521 | A new observer, which asks for its action's accelerators, keeps all this and knows them |
| PrimaryAccels.Accelerators.AskAll | src/gtkactionmuxer.c:901-918 | Exactly the observer's own knowledge of that action is renewed |
| PrimaryAccels.AccelsStill | src/gtkactionmuxer.c:900-918 | So does whatever leaves parents and accelerators alone and brings no new observer |
| PrimaryAccels.Accelerators.SetParent | src/gtkactionmuxer.c:823-882 | Exactly which observers know the right accelerator after a change of parent: all but those, at the muxer or below with no entry of their own on the way, of a key the old parent answered and the new one does not |
| PrimaryAccels.Accelerators.EmitChangedAccels | src/gtkactionmuxer.c:796-813 | Exactly the observers of a key the parent answers, as far as it reaches, ask again |
| PrimaryAccels.Accelerators.TellKeys | src/gtkactionmuxer.c:801-810 | The keys of one table |
| PrimaryAccels.ExposedAnswer | src/gtkactionmuxer.c:901-918 | Where no table up to the muxer has the key, its parent answers |
| PrimaryAccels.AnswerBesides | src/gtkactionmuxer.c:901-918 | Everywhere else the answer does not depend on what its parent is |
| PrimaryAccels.ParentChanged | src/gtkactionmuxer.c:823-882 | For one observer, exactly when it knows the right accelerator afterwards |
| PrimaryAccels.PairDrops | src/gtkactionmuxer.c:832-853 | Two muxers and an accelerator for which it does not: all notifications for it are sent before the link is cut |
| WindowOrder.CompareMeans | src/shell-app.c:696-723 | With user times within 2^31 of each other the comparison is: on the active workspace, visible, latest user time |
| WindowOrder.CompareExact | src/shell-app.c:696-723 | It is so exactly when workspace or visibility decide or the 32-bit difference does not wrap |
| WindowOrder.WrappedTimesMisorder | src/shell-app.c:722 | One pair of times for which it wraps and the order is wrong |
| WindowOrder.SortSorts | src/shell-app.c:745-751 | The sort is in that order |
| WindowOrder.SortKeepsTies | src/shell-app.c:750 | The sort is stable |
| WindowOrder.StableSortIsSort | src/shell-app.c:750 | Any stable sort in that order gives the same list |
| WindowOrder.SortedIsFresh | src/shell-app.c:745-752 | A list is in order exactly when a fresh sort leaves it as it is |
| WindowOrder.RemoveSorted | src/shell-app.c:1124 | Removing a window keeps the order |
| WindowOrder.HeadGrows | src/shell-app.c:937-944 | The first window's user time can grow without disturbing the order |
| WindowOrder.MovedExact | src/shell-app.c:695-723 | Whatever changes about one window of a list in order, the list is in order afterwards exactly if the window as it is now fits between its neighbours as they were |
| WindowOrder.Sort | src/shell-app.c:750 | A permutation of the list |
| Sequences.RemoveFirstCounts | src/shell-app.c:1124 | g_slist_remove: one occurrence less, all else kept |
| Sequences.RemoveFirstDistinct | src/shell-app.c:1124 | In a list without duplicates only that one goes |
| Apps.InterestingFlip | src/shell-app.c:973-976 | A window's flag moves the count by one |
| Apps.InterestingRemove | src/shell-app.c:1126-1127 | Removing a window takes its share of the count, so the counter does not underflow |
| Apps.InterestingSort | src/shell-app.c:750 | Sorting keeps the count |
| Apps.IdsChange | src/shell-app-system.c:587-625 | An application entering or leaving the running set takes its id along |
| Apps.AppSystem.NotifyAppStateChanged | src/shell-app-system.c:588-627 | What each state does to the running set and the timers |
| Apps.App.constructor | src/shell-app.c:1728-1732 | Stopped, no windows, no workspace |
| Apps.App.StateTransition | src/shell-app.c:916-928 | Keeps the running set and the timers in step; never from RUNNING to STARTING |
| Apps.App.SyncRunningState | src/shell-app.c:948-959 | Unless starting: running exactly when some window is interesting |
| Apps.App.AddWindow | src/shell-app.c:1083-1113 | Nothing if listed, else one window more, counted, the list marked stale, and the state following |
| Apps.App.RemoveWindow | src/shell-app.c:1116-1139 | One window less, counted; no running state without windows; a running state is there to begin with |
| Apps.App.OnSkipTaskbarChanged | src/shell-app.c:963-979 | The count follows the window's flag |
| Apps.App.OnUserTimeChanged | src/shell-app.c:931-945 | Marks the list stale unless the window is its first |
| Apps.App.OnWorkspaceSwitch | src/shell-app.c:982-995 | Marks the list stale |
| Apps.App.GetWindows | src/shell-app.c:737-759 | Sorts a stale list; a list in order when it is not stale gives what a fresh sort gives |
| Apps.App.HandleStartupSequence | src/shell-app.c:1174-1200 | Starting only from stopped; when completed, running with windows and stopped without |
| Apps.App.UpdateActions | src/shell-app.c:448-470 | Needs a running state |
| WindowTracker.Tracker.constructor | src/shell-window-tracker.c:667-684 | No windows, no applications; no list is out of order, and no id was used twice |
| WindowTracker.Tracker.TrackedOnce | src/shell-window-tracker.c:555-608 | In every reachable state a tracked window is exactly once in its application's list, and the application has a running state |
| WindowTracker.Tracker.RunningInStep | src/shell-app.c:915-979 | In every reachable state: the running set is the RUNNING applications, RUNNING has a window, STOPPED has no interesting one, the counter is right, and with distinct ids the timers are the ids of the running applications |
| WindowTracker.Tracker.NewApp | src/shell-app-system.c:424-442 | A new application, with whatever id; ids stay distinct exactly if it is new |
| WindowTracker.Tracker.NewForWindow | src/shell-app.c:879-890 | An application that lists the window, and has no id |
| WindowTracker.Tracker.GetAppForWindow | src/shell-window-tracker.c:388-475 | For the root of the transient chain: the application it is mapped to, else what its class and ids point to, else a new one that lists the root |
| WindowTracker.Tracker.AddTo | src/shell-app.c:1083-1113 | Adding a window to one application, as it affects all; exactly which of the other lists in order its move puts out of order: those it then does not fit in between its neighbours |
| WindowTracker.Tracker.TrackWindow | src/shell-window-tracker.c:555-575 | Which application lists the window afterwards, and in which place; exactly which lists in order go out of order |
| WindowTracker.Tracker.JoinApp | src/shell-window-tracker.c:563-572 | The window is mapped to the application and listed by it once; exactly which lists in order go out of order |
| WindowTracker.Tracker.DisassociateWindow | src/shell-window-tracker.c:586-608 | The map loses the window, and the invariant holds |
| WindowTracker.Tracker.UpdateFocusApp | src/shell-window-tracker.c:478-506 | The application of the first focused or transient-parent window in the taskbar; it is never one without a running state |
| WindowTracker.Tracker.FirstInTaskbar | src/shell-window-tracker.c:478-506 | The loop over the focused window and its transient parents |
| WindowTracker.Tracker.UpdateActionsOf | src/shell-app.c:448-470 | Needs a running state, which a listed window gives, and leaves the list and its order alone |
| WindowTracker.Tracker.WindowAppears | src/shell-window-tracker.c:577-582 | A window exists |
| WindowTracker.Tracker.PropertiesChanged | src/shell-app.c:702-752 | Properties that no handler here follows may change, workspace and visibility among them; exactly which lists in order that puts out of order |
| WindowTracker.Tracker.WindowCreated | src/shell-window-tracker.c:578-583 | From the state before the call: which application the window goes to, and exactly which lists in order go out of order - its application was started on a workspace, the window is new to it and can be moved, and in the other list it then does not fit |
| WindowTracker.Tracker.GiveUp | src/shell-window-tracker.c:586-608 | What giving a window up leaves, for the application it goes to next |
| WindowTracker.Tracker.WindowChanged | src/shell-window-tracker.c:509-518 | The former application gives the window up, and the one it goes to lists it, which may be the same; exactly which lists in order go out of order; the application in focus is looked up again |
| WindowTracker.Tracker.WindowUnmanaged | src/shell-window-tracker.c:548-552 | The application lists the window no longer, all others are as they were, and the invariant holds |
| WindowTracker.Tracker.FocusChanged | src/shell-window-tracker.c:773-778 | The application in focus follows the window, and no list changes |
| WindowTracker.Tracker.StartupSequenceChanged | src/shell-window-tracker.c:636-647 | The application follows the sequence and RUNNING does not become STARTING; an application that starts takes the focus away, and no application is in focus then |
| WindowTracker.Tracker.Shutdown | src/shell-window-tracker.c:650-664 | The map is empty at the end |
| WindowTracker.Tracker.SkipTaskbarChanged | src/shell-app.c:963-979 | Every application listing the window counts again, through all of them being told in any order |
| WindowTracker.Tracker.TellSkipTaskbar | src/shell-app.c:963-979 | The handlers of all those applications |
| WindowTracker.Tracker.UserTimeChanged | src/shell-app.c:931-945 | Every list that is not marked stale is still in order |
| WindowTracker.Tracker.TellUserTime | src/shell-app.c:931-945 | The handlers of all applications listing the window |
| WindowTracker.Tracker.WorkspaceSwitched | src/shell-app.c:982-995 | Every list is marked stale, and so none out of order |
| WindowTracker.Tracker.GetWindows | src/shell-app.c:737-759 | A list marked or in order gives a fresh sort; a list is in order unless a change to one of its windows put it out of order since it last was sorted |
| WindowTracker.DisturbedList | src/shell-app.c:1106-1108 | A run in which another application's startup moves a window: the list is not marked and out of order |
| WindowTracker.MisplacedExact | src/shell-app.c:695-752 | A list in order and not marked stays in order through any change to one window exactly if the window is not listed or still fits |
| WindowTracker.Tracker.Dispose | src/shell-app.c:1735-1750 | An application let go ends without windows and without a running state; its g_assert that it is stopped holds exactly if it was not starting |
| AppLookup.ExactMatchMeans | src/shell-app-system.c:113-126 | The id is the class, or the class with the .desktop suffix |
| AppLookup.WinnerStep | src/shell-app-system.c:187-201 | One declarer more wins exactly if it matches exactly, or if it is shown and the one before is not |
| AppLookup.WinnerMeans | src/shell-app-system.c:187-201 | A shown only exact match wins; without an exact match the first shown declarer, else the first |
| AppLookup.WinnerExactly | src/shell-app-system.c:187-201 | Exactly which declarer wins |
| AppLookup.ShownWinsExactly | src/shell-app-system.c:194-197 | A declarer that should be shown wins exactly if there is one that no exact match comes after |
| AppLookup.HiddenMatchDisplaces | src/shell-app-system.c:187-192 | Two desktop files for which an exact match that is not shown displaces a shown declarer, in either order |
| AppLookup.ScanStep | src/shell-app-system.c:171-202 | One desktop file more leaves every class with its winner |
| AppLookup.HiddenById | src/shell-app-system.c:183-197 | With distinct ids the list of hidden ids tells which declarers are hidden |
| AppLookup.AppTables.ScanStartupWmClassToId | src/shell-app-system.c:160-203 | Exactly the declared classes, each with the id of its winner, which declares it |
| AppLookup.AppTables.InstalledChanged | src/shell-app-system.c:352-369 | Exactly the applications whose information is still there and equal are kept |
| AppLookup.AppTables.CacheChanged | src/shell-app-system.c:352-369 | The tables follow the cache |
| AppLookup.AppTables.constructor | src/shell-app-system.c:372-388 | The tables follow the cache from the start |
| AppLookup.AppTables.LookupApp | src/shell-app-system.c:425-442 | An application exactly when the cache has the id, with equal information |
| AppLookup.AppTables.LookupStartupWmclass | src/shell-app-system.c:572-585 | An application exactly when the class is declared: the winner's |
| AppLookup.GetInfoFinds | src/shell-app-cache.c:359-376 | The cache finds an id exactly if it is there |
| AppCache.LoadedNames | src/shell-app-cache.c:104-127 | Loading one more directory: the first name given to a folder stays |
| AppCache.NamesUnique | src/shell-app-cache.c:104-127 | The entries read determine the folder names |
| AppCache.LoadFolder | src/shell-app-cache.c:91-128 | First added wins |
| AppCache.Cache.LoadFolders | src/shell-app-cache.c:131-148 | The first name of each folder, over all directories |
| AppCache.Cache.IdleIsCurrent | src/shell-app-cache.c:168-231 | When no timer and no live task remain, the cache was read after the last signalled change; if nothing changed since that signal it is what is there |
| AppCache.Cache.constructor | src/shell-app-cache.c:304-328 | Loaded at once |
| AppCache.Cache.QueueUpdate | src/shell-app-cache.c:221-231 | The change is awaited |
| AppCache.Cache.DoUpdate | src/shell-app-cache.c:198-218 | At most one task, the newest, is uncancelled |
| AppCache.Cache.ThreadRuns | src/shell-app-cache.c:151-166 | One read of the thread, with files that may change between reads |
| AppCache.Cache.ApplyUpdate | src/shell-app-cache.c:169-195 | A cancelled task changes nothing; another replaces list and folders by one snapshot, in start order |
| AppCache.Cache.FilesChange | src/shell-app-cache.c:214-226 | The files may change at any time |
| AppCache.Cache.Run | src/shell-app-cache.c:168-231 | Every interleaving of changes, signals, timers, threads and completions keeps all this; whether anything changed after the last signal |
| AppCache.RunFromStart | src/shell-app-cache.c:168-231 | Every run from the start: once nothing is under way, and if no file changed after the last signal, the cache is what is there |
| AppCache.StageMoves | src/shell-app-cache.c:173-182 | A thread that goes on, or a cancelled task that completes, leaves the cache one snapshot |
| KeyringSaves.ToStoreIs | src/shell-network-agent.c:673-765 | What is stored is exactly the agent-owned secrets that are not empty |
| KeyringSaves.Keyring.CalledOnce | src/shell-network-agent.c:655-789 | A save calls back at most once: when its last store has completed, and it is freed then; exactly until then one of its stores or its own delete is under way |
| KeyringSaves.Keyring.constructor | src/shell-network-agent.c:124-129 | No saves, nothing under way |
| KeyringSaves.Keyring.SaveSecrets | src/shell-network-agent.c:792-809 | First deletes |
| KeyringSaves.Keyring.DeleteSecrets | src/shell-network-agent.c:837-862 | A delete is under way |
| KeyringSaves.Keyring.ItemsDeleted | src/shell-network-agent.c:812-834 | A delete of its own reports; that of a save has it store, whatever the error |
| KeyringSaves.Keyring.SaveDelete | src/shell-network-agent.c:768-789 | The count is that of the stores started; with none it calls back at once |
| KeyringSaves.Keyring.WriteSecrets | src/shell-network-agent.c:736-765 | One store for each secret to be kept, of exactly those, in order |
| KeyringSaves.Keyring.SaveEach | src/shell-network-agent.c:674-705 | So for the secrets of one value |
| KeyringSaves.Keyring.SecretStored | src/shell-network-agent.c:656-671 | Counts down; the last one calls back and frees |
| KeyringSaves.CountChanges | src/shell-network-agent.c:655-789 | A save that goes on leaves every other as it was |
| NetworkAgent.IdsDiffer | src/shell-network-agent.c:365 | A request id stands for one connection and one setting |
| NetworkAgent.Agent.AnsweredOnce | src/shell-network-agent.c:104-122 | In every reachable state a request has been called back at most once, and once exactly if it has left the table |
| NetworkAgent.Agent.OnePending | src/shell-network-agent.c:365-386 | At most one request is pending for a connection and setting |
| NetworkAgent.Agent.constructor | src/shell-network-agent.c:125-129 | No requests |
| NetworkAgent.Agent.Finish | src/shell-network-agent.c:88-122 | Calls back and leaves the table, which cancels the search |
| NetworkAgent.Agent.GetSecrets | src/shell-network-agent.c:351-409 | A pending request for the same setting is cancelled, called back, and replaced; what asks at once and what searches first |
| NetworkAgent.Agent.SearchCompletes | src/shell-network-agent.c:247-348 | A cancelled search touches nothing, above all no newer request with the same id; any other finds its own request in the table and answers it or asks the user |
| NetworkAgent.Agent.CollectSecrets | src/shell-network-agent.c:284-315 | The secrets found, by key |
| NetworkAgent.FoundIs | src/shell-network-agent.c:284-315 | A key is there exactly if some item gives it a secret, and the last such item decides |
| NetworkAgent.Agent.AddVpnSecret | src/shell-network-agent.c:412-425 | One VPN secret of one request |
| NetworkAgent.Agent.AskedUnlessSearching | src/shell-network-agent.c:375-425 | A late answer finds entries to fill in exactly if no search is under way for the request that has the id by then |
| NetworkAgent.ReplacedWhileAsked | src/shell-network-agent.c:365-425 | A run in which it does not: the request that was asked for is replaced by one that searches |
| NetworkAgent.Agent.SetPassword | src/shell-network-agent.c:428-441 | One entry of one request; nothing while the request that has the id is being searched for |
| NetworkAgent.Agent.Respond | src/shell-network-agent.c:444-512 | Calls back once with what was entered, or the error, and saves what is to be saved |
| NetworkAgent.Agent.CancelGetSecrets | src/shell-network-agent.c:572-593 | Nothing if the result was sent already, else the request is answered as cancelled |
| NetworkAgent.Agent.Finalize | src/shell-network-agent.c:132-159 | Every request ever made has been called back exactly once |
| NetworkAgent.TrackLess | src/shell-network-agent.c:104-122 | Calling back and removing one request leaves every other as it was |
| NetworkAgent.TrackMore | src/shell-network-agent.c:375-388 | A new request under a free id leaves every other as it was |
| PolkitAgent.Agent.InArrivalOrder | src/shell-polkit-authentication-agent.c:306-411 | In every reachable state every request is completed at most once, and once exactly when it is neither current nor waiting; one not given up is initiated before all later ones; with none current all have been dealt with |
| PolkitAgent.Agent.OneCurrent | src/shell-polkit-authentication-agent.c:357-374 | The current request is not waiting and not completed |
| PolkitAgent.Agent.constructor | src/shell-polkit-authentication-agent.c:48-55 | No requests, none initiated and none given up |
| PolkitAgent.Agent.MaybeProcessNextRequest | src/shell-polkit-authentication-agent.c:358-374 | The first that waits becomes current when none is, and its handler may do what it likes; nothing is given up unless a handler unregisters the agent, and then only what waited, dismissed without being initiated |
| PolkitAgent.Agent.RunHandler | src/shell-polkit-authentication-agent.c:209-259 | A handler may complete and unregister re-entrantly, any number of times; only what waited is given up, and nothing if none unregisters |
| PolkitAgent.Agent.AuthRequestComplete | src/shell-polkit-authentication-agent.c:327-355 | Completes just this one; the next in line is initiated if it was current; nothing is given up but by a handler that unregisters the agent |
| PolkitAgent.Agent.UnregisterAll | src/shell-polkit-authentication-agent.c:307-322 | Dismisses all that wait, in order, then the current one, and initiates none; exactly what waited is given up |
| PolkitAgent.Agent.InitiateAuthentication | src/shell-polkit-authentication-agent.c:377-411 | Goes to the end of the line, or is initiated at once if none is current; nothing is given up, whatever handlers do |
| PolkitAgent.Agent.OnRequestCancelled | src/shell-polkit-authentication-agent.c:286-298 | Leaves it to an idle source; exactly this request is given up |
| PolkitAgent.Agent.HandleCancelledInIdle | src/shell-polkit-authentication-agent.c:266-283 | Completes a request that waits; tells the current one's dialog, whose handler may unregister the agent |
| PolkitAgent.Agent.CompleteCurrent | src/shell-polkit-authentication-agent.c:422-429 | Completes the current request, and the first that waits is next |
| PolkitAgent.Agent.Run | src/shell-polkit-authentication-agent.c:265-411 | Every order of arrivals, cancellations, idles, answers and unregistering keeps all this; only cancelled requests are given up, and, if the agent is unregistered, those dismissed then without having been initiated |
| PolkitAgent.RunFromStart | src/shell-polkit-authentication-agent.c:265-411 | Every run from the start: a request that is never cancelled is initiated before all later ones, unless the agent was unregistered while it waited; then it was dismissed and never initiated |
| PolkitAgent.Initiated | src/shell-polkit-authentication-agent.c:363-370 | Becoming current keeps requests in order of arrival |
| PolkitAgent.Completed | src/shell-polkit-authentication-agent.c:327-350 | Completing one request keeps the account of all |
| BlurEffect.CalculateDownscaleFactor | src/shell-blur-effect.c:290-315 | The least power of two at which the radius is at most 12 or a side at most 256 |
| BlurEffect.LeastUnique | src/shell-blur-effect.c:290-315 | There is one such factor |
| BlurEffect.Effect.constructor | src/shell-blur-effect.c:808-820 | No framebuffers |
| BlurEffect.Effect.SetActor | src/shell-blur-effect.c:318-334 | Drops all framebuffers |
| BlurEffect.Effect.SetRadius | src/shell-blur-effect.c:837-852 | Keeps every framebuffer right |
| BlurEffect.Effect.SetMode | src/shell-blur-effect.c:889-916 | Drops the background framebuffer with its mode |
| BlurEffect.Effect.UpdateActorFbo | src/shell-blur-effect.c:230-246 | Reused exactly if it is there and size and factor are the same |
| BlurEffect.Effect.UpdateBrightnessFbo | src/shell-blur-effect.c:249-265 | So for the brightness framebuffer |
| BlurEffect.Effect.UpdateBackgroundFbo | src/shell-blur-effect.c:268-280 | So for the background, whatever the factor |
| BlurEffect.Effect.UpdateFramebuffers | src/shell-blur-effect.c:500-524 | On success every framebuffer the mode uses was made for the current size and factor; after a failed allocation, exactly when those kept are; an update at the size and factor kept does nothing about one that is not |
| BlurEffect.Effect.PaintActorOffscreen | src/shell-blur-effect.c:538-594 | A picture used again was painted since its framebuffer was made |
| BlurEffect.UpdateAgain | src/shell-blur-effect.c:500-524 | An update with whatever luck, then one at the same size with every allocation succeeding: the second succeeds, and what it uses was made for that size and factor exactly if FitsOnce held before both |
| BlurEffect.StaleAfterFailure | src/shell-blur-effect.c:510-521 | A failed allocation while the size changes has a later update succeed with a framebuffer of the old size |
| Screenshot.ConvertAlpha | src/shell-screenshot.c:139-178 | Every byte of the destination is that of the pixel it belongs to, or what it was |
| Screenshot.ConvertNoAlpha | src/shell-screenshot.c:181-208 | The same without alpha |
| Screenshot.StorePixel | src/shell-screenshot.c:158-172 | Four bytes of one pixel, and no others |
| Screenshot.DestinationPixel | src/shell-screenshot.c:139-178 | Where the bytes of the pixel for a column and a row are |
| Screenshot.CoveredIsPixel | src/shell-screenshot.c:139-178 | No byte outside the image's pixels is written |
| Screenshot.PixelRestored | src/shell-screenshot.c:158-172 | For premultiplied input, multiplying by the alpha again with nearest rounding restores every channel |
| Screenshot.StraightRestores | src/shell-screenshot.c:168-170 | A channel at most its alpha gives at most 255, and is restored |
| Screenshot.PremultiplyIsNearest | src/shell-screenshot.c:168-170 | That multiplication rounds to the nearest number |
| Screenshot.Channels | src/shell-screenshot.c:158-170 | The masks and shifts pick the bytes of the pixel |
| Screenshot.OpaqueColours | src/shell-screenshot.c:200-202 | Without alpha the colours are copied |

## Left out

- BatchTasks.Drive: holds and batches are records in tables rather than heap objects. A task's handler that itself
  releases holds while it runs is not modelled, nor is a caller's own `acquireUntilAfter`, of which the repository has
  none (js/gdm/batch.js:179 is the only call); a batch is run once, and is nested once.
- PerfLogModel: little-endian machine; the sum of the last time and 0xffffffff is not taken to wrap at 64 bits.
- PerfLog: the periodic collection timer, JSON dumps and callbacks that switch the log on or off are left out; strings are
  without NUL.
- ActionMuxer: muxers and groups are records in tables rather than heap objects. Handlers of its signals other than child
  muxers and observers, activation, state changes requested through the muxer and its disposal are left out; observers do
  nothing to the muxers while they are told.
- NetworkAgent.Agent.Respond: a confirmation is taken to come when no search is under way for the request that has the id;
  before, there is no dictionary to end, which GLib does not define.
- ActionMuxer.World.SetParent: a new parent that is below the muxer, a cycle, is excluded.
- PrimaryAccels: in a change of parent the notifications for accelerators come before and after those for actions, rather
  than between them; what observers know of the one does not depend on the other.
- SecureTextBuffer: the cap is a constant of Mutter's headers, which are not part of this repository (G_MAXUSHORT); the
  position an insertion starts from is in range, as Clutter's own checks see to.
- WindowTracker.Tracker.GetAppForWindow: what class, ids, process, startup sequence and group say is a parameter.
- WindowTracker.Tracker.Dispose: references are not counted: it is called for one that is in no table.
- WindowTracker: handlers of the state and windows signals do not call back.
- Apps: the D-Bus proxies for busy state and the contents of action groups are left out.
- AppLookup: aliases, icon rescans, the retracking of windows after a cache change and the vendor-prefix heuristics are
  left out. Without distinct ids nothing is said of the class table.
- AppCache: the creation of file monitors and their rate limit.
- NetworkAgent: signal handlers and callbacks do not re-enter the agent, except that answering a request right in the
  new-request signal is the same as answering it next. VPN plugin searches are left out.
- NetworkAgent.Agent.SearchCompletes: that a search cancelled before its result is delivered reports the cancellation is
  taken from libsecret.
- KeyringSaves: errors of stores and deletes are ignored by the source too; a lookup's attributes and display names are
  left out.
- PolkitAgent.Agent.HandleCancelledInIdle: the idle source is taken to run while its request is live; the source does not
  remove it when the request completes first.
- BlurEffect: rendering, GLSL and projection matrices; floats are reals and sizes whole numbers.
- Screenshot: the compositing of cursors, file streams and colour picking; row strides of at least the image's width.
- Leisure functions and save operations of src/shell-global.c, the usage ranking of src/shell-app-usage.c, the camera
  monitor and the extension services are not modelled.
