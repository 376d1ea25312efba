/**
  The task, hold and batch objects of js/gdm/batch.js.

  JavaScript objects are records in two tables of the runtime, and a reference to an object is its index there: the
  object graph is cyclic (a hold's 'release' handlers refer to the batches waiting on it), and batches exist before the
  batches they are nested in, so a nested batch always has a smaller index. A handler closure is a value naming what
  the closure calls; `origin` is the task position whose run connected it.
 */
module BatchTasks {
  import opened Wrappers
  import opened Sequences

  datatype Position = Position(batch: nat, index: nat)

  // What a 'release' handler does after disconnecting itself.
  datatype Handler =
    | ReleaseHold(hold: nat, origin: Position)
    | AdvanceBatch(batch: nat, origin: Position)

  // A task of a batch: a function or Hold whose run() returns null or an existing hold, or another batch.
  datatype Task =
    | Action(returned: Option<nat>)
    | Nested(batch: nat)

  // `owner` is the batch that created the hold in _start, None for a hold made with `new Hold()`.
  datatype HoldObject = HoldObject(acquisitions: int, handlers: seq<Handler>, owner: Option<nat>)

  // Before the batch is run `hold` is None and `currentTaskIndex` is -1 (undefined in the source).
  datatype BatchObject = BatchObject(concurrent: bool, tasks: seq<Task>, currentTaskIndex: int, hold: Option<nat>)

  datatype TraceEvent =
    | Ran(position: Position)   // the task's run() was called
    | Emitted(hold: nat)        // the hold emitted 'release'

  datatype State = State(holds: seq<HoldObject>, batches: seq<BatchObject>, trace: seq<TraceEvent>)

  // ---------- the algebra of sequence and join ----------

  // Nested batches are older than the batch holding them, and actions return holds made with `new Hold()`.
  ghost predicate Shaped(s: State) {
    forall b, i {:trigger s.batches[b].tasks[i]} :: 0 <= b < |s.batches| && 0 <= i < |s.batches[b].tasks| ==>
      TaskShaped(s, b, s.batches[b].tasks[i])
  }

  ghost predicate TaskShaped(s: State, b: nat, t: Task) {
    match t
    case Action(None) => true
    case Action(Some(h)) => h < |s.holds| && s.holds[h].owner == None
    case Nested(c) => c < b
  }

  // The holds that no longer block anything.
  ghost function Released(s: State): set<nat> {
    set h: nat | h < |s.holds| && s.holds[h].owner == None && s.holds[h].acquisitions <= 0
  }

  // A task is done once the hold it returned is released; a batch is done once all its tasks are.
  ghost predicate Done(s: State, released: set<nat>, b: nat)
    requires Shaped(s) && b < |s.batches|
    decreases b, 0
  {
    forall i :: 0 <= i < |s.batches[b].tasks| ==> TaskDone(s, released, b, i)
  }

  ghost predicate TaskDone(s: State, released: set<nat>, b: nat, i: nat)
    requires Shaped(s) && b < |s.batches| && i < |s.batches[b].tasks|
    decreases b, 0, i
  {
    match s.batches[b].tasks[i]
    case Action(None) => true
    case Action(Some(h)) => h in released
    case Nested(c) => assert TaskShaped(s, b, s.batches[b].tasks[i]); Done(s, released, c)
  }

  // The positions started by tasks i, i+1, ... of b: all of them when concurrent, otherwise up to and including the
  // first task that is not done.
  ghost function StartedFrom(s: State, released: set<nat>, b: nat, i: nat): set<Position>
    requires Shaped(s) && b < |s.batches| && i <= |s.batches[b].tasks|
    decreases b, 1, |s.batches[b].tasks| - i
  {
    if i == |s.batches[b].tasks| then {}
    else
      var t := s.batches[b].tasks[i];
      assert TaskShaped(s, b, t);
      {Position(b, i)}
      + (if t.Nested? then StartedFrom(s, released, t.batch, 0) else {})
      + (if s.batches[b].concurrent || TaskDone(s, released, b, i) then StartedFrom(s, released, b, i + 1) else {})
  }

  // Every task position in the tree of b, from task i on.
  ghost function AllFrom(s: State, b: nat, i: nat): set<Position>
    requires Shaped(s) && b < |s.batches| && i <= |s.batches[b].tasks|
    decreases b, |s.batches[b].tasks| - i
  {
    if i == |s.batches[b].tasks| then {}
    else
      var t := s.batches[b].tasks[i];
      assert TaskShaped(s, b, t);
      {Position(b, i)}
      + (if t.Nested? then AllFrom(s, t.batch, 0) else {})
      + AllFrom(s, b, i + 1)
  }

  // ---------- the run-time invariant ----------

  // How far a batch has got while it is inside process(): `ran` tasks have been run, and the holds of the first
  // `linked` of them have been looked at.
  datatype Progress = Progress(ran: nat, linked: nat)
  type Busy = map<nat, Progress>

  ghost predicate Started(s: State, b: nat)
    requires b < |s.batches|
  {
    s.batches[b].hold.Some?
  }

  ghost function Reached(s: State, b: nat): nat
    requires b < |s.batches|
  {
    if !Started(s, b) || s.batches[b].currentTaskIndex < 0 then 0
    else if s.batches[b].currentTaskIndex < |s.batches[b].tasks| then s.batches[b].currentTaskIndex + 1
    else |s.batches[b].tasks|
  }

  ghost function RanCount(s: State, busy: Busy, b: nat): nat
    requires b < |s.batches|
  {
    if b in busy then busy[b].ran else Reached(s, b)
  }

  ghost function LinkedCount(s: State, busy: Busy, b: nat): nat
    requires b < |s.batches|
  {
    if b in busy then busy[b].linked else Reached(s, b)
  }

  // The hold returned by the run() of task i of b.
  ghost function HoldAt(s: State, b: nat, i: nat): Option<nat>
    requires b < |s.batches| && i < |s.batches[b].tasks|
  {
    match s.batches[b].tasks[i]
    case Action(h) => h
    case Nested(c) => if c < |s.batches| then s.batches[c].hold else None
  }

  ghost predicate Pending(s: State, b: nat, i: nat)
    requires b < |s.batches| && i < |s.batches[b].tasks|
  {
    var h := HoldAt(s, b, i);
    h.Some? && h.value < |s.holds| && s.holds[h.value].acquisitions > 0
  }

  // Task i of b still counts against b: its hold is acquired, or is released but b has not been told yet.
  ghost predicate Waits(s: State, owed: set<Position>, b: nat, i: nat)
    requires b < |s.batches| && i < |s.batches[b].tasks|
  {
    Pending(s, b, i) || Position(b, i) in owed
  }

  ghost function WaitSet(s: State, owed: set<Position>, busy: Busy, b: nat): set<nat>
    requires b < |s.batches|
  {
    set i: nat | i < |s.batches[b].tasks| && i < LinkedCount(s, busy, b) && Waits(s, owed, b, i)
  }

  ghost function Origins(hs: seq<Handler>): set<Position> {
    set k | 0 <= k < |hs| :: hs[k].origin
  }

  ghost predicate HandlerFits(s: State, owed: set<Position>, busy: Busy, h: nat, x: Handler)
    requires h < |s.holds|
  {
    var o := x.origin;
    && o.batch < |s.batches|
    && Started(s, o.batch)
    && o.index < |s.batches[o.batch].tasks|
    && o.index < LinkedCount(s, busy, o.batch)
    && HoldAt(s, o.batch, o.index) == Some(h)
    && (s.holds[h].acquisitions > 0 || o in owed)
    && x == (if s.batches[o.batch].concurrent then ReleaseHold(s.batches[o.batch].hold.value, o)
             else AdvanceBatch(o.batch, o))
  }

  ghost predicate HoldsOk(s: State, owed: set<Position>, busy: Busy) {
    && (forall h {:trigger s.holds[h].owner} :: 0 <= h < |s.holds| && s.holds[h].owner.Some? ==>
         s.holds[h].owner.value < |s.batches| && s.batches[s.holds[h].owner.value].hold == Some(h))
    && (forall h, k {:trigger s.holds[h].handlers[k]} :: 0 <= h < |s.holds| && 0 <= k < |s.holds[h].handlers| ==>
         HandlerFits(s, owed, busy, h, s.holds[h].handlers[k]))
    && (forall h, k, l {:trigger s.holds[h].handlers[k], s.holds[h].handlers[l]} ::
         0 <= h < |s.holds| && 0 <= k < l < |s.holds[h].handlers| ==>
         s.holds[h].handlers[k].origin != s.holds[h].handlers[l].origin)
  }

  // Whatever the batch still waits for is connected to the hold it waits for.
  ghost predicate Connected(s: State, owed: set<Position>, b: nat, i: nat)
    requires b < |s.batches| && i < |s.batches[b].tasks|
  {
    Waits(s, owed, b, i) ==>
      var h := HoldAt(s, b, i);
      h.Some? && h.value < |s.holds| && Position(b, i) in Origins(s.holds[h.value].handlers)
  }

  ghost predicate TreeOk(s: State, busy: Busy, starting: Option<nat>) {
    && Shaped(s)
    && (forall b, i {:trigger s.batches[b].tasks[i]} :: 0 <= b < |s.batches| && 0 <= i < |s.batches[b].tasks| ==>
         s.batches[b].tasks[i].Nested? ==>
           var c := s.batches[b].tasks[i].batch;
           && c < |s.batches|
           && ((Started(s, c) || starting == Some(c)) <==> i < RanCount(s, busy, b))
           && (i < LinkedCount(s, busy, b) ==> Started(s, c)))
    && (forall b, i, b', i' {:trigger s.batches[b].tasks[i], s.batches[b'].tasks[i']} ::
           && 0 <= b < |s.batches| && 0 <= i < |s.batches[b].tasks|
           && 0 <= b' < |s.batches| && 0 <= i' < |s.batches[b'].tasks|
           && s.batches[b].tasks[i].Nested? && s.batches[b].tasks[i] == s.batches[b'].tasks[i']
           ==> b == b' && i == i')
  }

  // The hold count a batch accounts for: itself while unfinished, and the tasks a concurrent batch waits on.
  ghost function Accounted(s: State, owed: set<Position>, busy: Busy, b: nat): nat
    requires b < |s.batches|
  {
    (if b in busy || (!s.batches[b].concurrent && s.batches[b].currentTaskIndex < |s.batches[b].tasks|) then 1 else 0)
    + (if s.batches[b].concurrent then |WaitSet(s, owed, busy, b)| else 0)
  }

  ghost predicate BatchOk(s: State, owed: set<Position>, busy: Busy, extra: Option<nat>, b: nat)
    requires b < |s.batches|
  {
    var x := s.batches[b];
    if x.hold == None then
      b !in busy && x.currentTaskIndex == -1 && extra != Some(b)
    else
      && x.hold.value < |s.holds|
      && s.holds[x.hold.value].owner == Some(b)
      && s.holds[x.hold.value].acquisitions
         == Accounted(s, owed, busy, b) + (if extra == Some(b) then 1 else 0)
      && 0 <= x.currentTaskIndex
      && (b in busy ==> busy[b].linked <= busy[b].ran <= |x.tasks|)
      && (forall i :: 0 <= i < |x.tasks| && i < LinkedCount(s, busy, b) ==> Connected(s, owed, b, i))
      && (x.concurrent && b !in busy ==> x.currentTaskIndex >= |x.tasks|)
      && (!x.concurrent ==> forall i :: 0 <= i < |x.tasks| && i < LinkedCount(s, busy, b) ==>
           (Waits(s, owed, b, i) <==> (b !in busy && i == x.currentTaskIndex)))
  }

  ghost predicate TraceOk(s: State, busy: Busy) {
    && (forall p: Position {:trigger Ran(p)} ::
         multiset(s.trace)[Ran(p)] == if p.batch < |s.batches| && p.index < RanCount(s, busy, p.batch) then 1 else 0)
    && (forall h: nat {:trigger Emitted(h)} ::
         multiset(s.trace)[Emitted(h)] == if h < |s.holds| && s.holds[h].acquisitions <= 0 then 1 else 0)
  }

  ghost predicate OwedOk(s: State, owed: set<Position>, busy: Busy) {
    forall o {:trigger o in owed} :: o in owed ==>
      && o.batch < |s.batches| && Started(s, o.batch)
      && o.index < |s.batches[o.batch].tasks| && o.index < LinkedCount(s, busy, o.batch)
      && !Pending(s, o.batch, o.index)
  }

  /**
    The invariant that holds between any two statements of the source.
      owed      task positions whose hold is released but whose handler has yet to run
      busy      batches inside process()
      extra     a batch whose hold has one acquisition more than it accounts for, about to be dropped
      starting  a batch whose run() has been called but which has no hold yet
   */
  ghost predicate Inv(s: State, owed: set<Position>, busy: Busy, extra: Option<nat>, starting: Option<nat>) {
    && TreeOk(s, busy, starting)
    && HoldsOk(s, owed, busy)
    && (forall b :: 0 <= b < |s.batches| ==> BatchOk(s, owed, busy, extra, b))
    && (forall b :: b in busy ==> b < |s.batches|)
    && TraceOk(s, busy)
    && OwedOk(s, owed, busy)
  }

  // The states in which no code of this file is on the stack.
  ghost predicate Quiet(s: State) {
    Inv(s, {}, map[], None, None)
  }

  // ---------- the invariant implies the algebra ----------

  // A batch's hold is released exactly when the tree below it is done.
  lemma {:induction false} ReleasedIffDone(s: State, b: nat)
    requires Quiet(s) && b < |s.batches| && Started(s, b)
    ensures s.batches[b].hold.value < |s.holds|
    ensures s.holds[s.batches[b].hold.value].acquisitions <= 0 <==> Done(s, Released(s), b)
    decreases b
  {
    var x := s.batches[b];
    var n := Reached(s, b);
    assert BatchOk(s, {}, map[], None, b);
    forall i: nat | i < n
      ensures Waits(s, {}, b, i) <==> !TaskDone(s, Released(s), b, i)
    {
      PendingIffNotDone(s, b, i);
    }
    if x.concurrent {
      var w := WaitSet(s, {}, map[], b);
      if w != {} {
        var i :| i in w;
        assert !TaskDone(s, Released(s), b, i);
      } else {
        forall i: nat | i < |x.tasks|
          ensures TaskDone(s, Released(s), b, i)
        {
          assert i !in w;
        }
      }
    } else if x.currentTaskIndex < |x.tasks| {
      assert Waits(s, {}, b, x.currentTaskIndex);
    } else {
      forall i: nat | i < |x.tasks|
        ensures TaskDone(s, Released(s), b, i)
      {
        assert !Waits(s, {}, b, i);
      }
    }
  }

  lemma {:induction false} PendingIffNotDone(s: State, b: nat, i: nat)
    requires Quiet(s) && b < |s.batches| && Started(s, b) && i < Reached(s, b)
    ensures Pending(s, b, i) <==> !TaskDone(s, Released(s), b, i)
    decreases b, 0
  {
    var t := s.batches[b].tasks[i];
    assert TaskShaped(s, b, t);
    if t.Nested? {
      assert Started(s, t.batch);
      ReleasedIffDone(s, t.batch);
    }
  }

  // Nothing below a task that the batch has not reached has run.
  lemma {:induction false} NoneRan(s: State, b: nat, i: nat, p: Position)
    requires Quiet(s) && b < |s.batches| && Reached(s, b) <= i <= |s.batches[b].tasks|
    requires p in AllFrom(s, b, i)
    ensures Ran(p) !in s.trace
    decreases b, |s.batches[b].tasks| - i
  {
    var t := s.batches[b].tasks[i];
    assert TaskShaped(s, b, t);
    if p == Position(b, i) {
      assert multiset(s.trace)[Ran(p)] == 0;
    } else if t.Nested? && p in AllFrom(s, t.batch, 0) {
      NoneRan(s, t.batch, 0, p);
    } else {
      NoneRan(s, b, i + 1, p);
    }
  }

  // Where the algebra goes on after task i, so has the batch.
  lemma GoesOn(s: State, b: nat, i: nat)
    requires Quiet(s) && b < |s.batches| && Started(s, b) && i < Reached(s, b)
    ensures s.batches[b].concurrent || TaskDone(s, Released(s), b, i) ==>
              i + 1 < Reached(s, b) || i + 1 == |s.batches[b].tasks|
  {
    assert BatchOk(s, {}, map[], None, b);
    PendingIffNotDone(s, b, i);
    assert Pending(s, b, i) <==> Waits(s, {}, b, i);
  }

  lemma {:induction false} StartedRan(s: State, b: nat, i: nat, p: Position)
    requires Quiet(s) && b < |s.batches| && Started(s, b) && i <= |s.batches[b].tasks|
    requires i < Reached(s, b) || i == |s.batches[b].tasks|
    requires p in StartedFrom(s, Released(s), b, i)
    ensures Ran(p) in s.trace
    decreases b, |s.batches[b].tasks| - i
  {
    var t := s.batches[b].tasks[i];
    assert TaskShaped(s, b, t);
    assert BatchOk(s, {}, map[], None, b);
    if p == Position(b, i) {
      assert multiset(s.trace)[Ran(p)] == 1;
    } else if t.Nested? && p in StartedFrom(s, Released(s), t.batch, 0) {
      assert BatchOk(s, {}, map[], None, t.batch);
      StartedRan(s, t.batch, 0, p);
    } else {
      GoesOn(s, b, i);
      StartedRan(s, b, i + 1, p);
    }
  }

  lemma {:induction false} RanStarted(s: State, b: nat, i: nat, p: Position)
    requires Quiet(s) && b < |s.batches| && Started(s, b) && i <= |s.batches[b].tasks|
    requires i < Reached(s, b) || i == |s.batches[b].tasks|
    requires p in AllFrom(s, b, i) && Ran(p) in s.trace
    ensures p in StartedFrom(s, Released(s), b, i)
    decreases b, |s.batches[b].tasks| - i
  {
    hide HoldsOk, OwedOk, HandlerFits, Connected, Accounted, WaitSet;
    var t := s.batches[b].tasks[i];
    assert TaskShaped(s, b, t);
    assert BatchOk(s, {}, map[], None, b);
    if p == Position(b, i) {
    } else if t.Nested? && p in AllFrom(s, t.batch, 0) {
      assert BatchOk(s, {}, map[], None, t.batch);
      RanStarted(s, t.batch, 0, p);
    } else {
      GoesOn(s, b, i);
      if s.batches[b].concurrent || TaskDone(s, Released(s), b, i) {
        RanStarted(s, b, i + 1, p);
      } else {
        PendingIffNotDone(s, b, i);
        assert Waits(s, {}, b, i);
        NoneRan(s, b, i + 1, p);
      }
    }
  }

  /**
    The run-time objects refine the algebra: at rest, a batch that was run has started exactly the tasks that sequence
    and join start given the released holds, each of them once, and its hold has emitted 'release' (once) exactly when
    the whole tree below it is done.
   */
  lemma {:induction false} RefinesAlgebra(s: State, b: nat)
    requires Quiet(s) && b < |s.batches| && Started(s, b)
    ensures forall p :: p in AllFrom(s, b, 0) ==>
              (p in StartedFrom(s, Released(s), b, 0) <==> Ran(p) in s.trace) && multiset(s.trace)[Ran(p)] <= 1
    ensures Emitted(s.batches[b].hold.value) in s.trace <==> Done(s, Released(s), b)
    ensures multiset(s.trace)[Emitted(s.batches[b].hold.value)] <= 1
  {
    assert BatchOk(s, {}, map[], None, b);
    ReleasedIffDone(s, b);
    var e := Emitted(s.batches[b].hold.value);
    assert e in s.trace <==> multiset(s.trace)[e] > 0;
    forall p | p in AllFrom(s, b, 0)
      ensures p in StartedFrom(s, Released(s), b, 0) <==> Ran(p) in s.trace
      ensures multiset(s.trace)[Ran(p)] <= 1
    {
      assert multiset(s.trace)[Ran(p)] <= 1;
      if p in StartedFrom(s, Released(s), b, 0) { StartedRan(s, b, 0, p); }
      if Ran(p) in s.trace { RanStarted(s, b, 0, p); }
    }
  }

  // ---------- single steps and what they keep ----------

  ghost function WithHold(s: State, h: nat, x: HoldObject): State
    requires h < |s.holds|
  {
    s.(holds := s.holds[h := x])
  }

  ghost function WithIndex(s: State, b: nat, i: int): State
    requires b < |s.batches|
  {
    s.(batches := s.batches[b := s.batches[b].(currentTaskIndex := i)])
  }

  // A run() call on task `p`.
  ghost function LogRun(s: State, p: Position): State {
    s.(trace := s.trace + [Ran(p)])
  }

  // _start: a fresh hold, and the first index.
  ghost function Begin(s: State, b: nat): State
    requires b < |s.batches|
  {
    State(s.holds + [HoldObject(1, [], Some(b))],
          s.batches[b := s.batches[b].(hold := Some(|s.holds|), currentTaskIndex := 0)],
          s.trace)
  }

  // Connecting the handler with which b waits for hold h, returned by its current task.
  ghost function Link(s: State, b: nat, i: nat, h: nat): State
    requires b < |s.batches| && Started(s, b) && h < |s.holds|
  {
    var x := s.batches[b];
    var o := Position(b, i);
    WithHold(s, h, s.holds[h].(handlers := s.holds[h].handlers +
      [if x.concurrent then ReleaseHold(x.hold.value, o) else AdvanceBatch(b, o)]))
  }

  ghost function Gain(s: State, h: nat): State
    requires h < |s.holds|
  {
    WithHold(s, h, s.holds[h].(acquisitions := s.holds[h].acquisitions + 1))
  }

  // release() up to the emission.
  ghost function Drop(s: State, h: nat): State
    requires h < |s.holds|
  {
    var s' := WithHold(s, h, s.holds[h].(acquisitions := s.holds[h].acquisitions - 1));
    if s.holds[h].acquisitions == 1 then s'.(trace := s'.trace + [Emitted(h)]) else s'
  }

  ghost function Disconnect(s: State, h: nat, x: Handler): State
    requires h < |s.holds|
  {
    WithHold(s, h, s.holds[h].(handlers := Without(s.holds[h].handlers, x)))
  }

  // What a drop of h leaves to be told.
  ghost function NewlyOwed(s: State, h: nat): set<Position>
    requires h < |s.holds|
  {
    if s.holds[h].acquisitions == 1 then Origins(s.holds[h].handlers) else {}
  }

  lemma DropWaits(s: State, h: nat, owed: set<Position>, busy: Busy, extra: Option<nat>, b: nat, i: nat)
    requires h < |s.holds| && b < |s.batches| && BatchOk(s, owed, busy, extra, b) && HoldsOk(s, owed, busy)
    requires Started(s, b) && i < |s.batches[b].tasks| && i < LinkedCount(s, busy, b)
    ensures Waits(Drop(s, h), owed + NewlyOwed(s, h), b, i) <==> Waits(s, owed, b, i)
    ensures Connected(Drop(s, h), owed + NewlyOwed(s, h), b, i)
  {
    assert Connected(s, owed, b, i);
    assert HoldAt(Drop(s, h), b, i) == HoldAt(s, b, i);
    if Position(b, i) in NewlyOwed(s, h) {
      var k :| 0 <= k < |s.holds[h].handlers| && s.holds[h].handlers[k].origin == Position(b, i);
      assert HandlerFits(s, owed, busy, h, s.holds[h].handlers[k]);
    }
  }

  lemma DropBatch(s: State, h: nat, owed: set<Position>, busy: Busy, b: nat)
    requires h < |s.holds| && b < |s.batches| && HoldsOk(s, owed, busy)
    requires BatchOk(s, owed, busy, s.holds[h].owner, b)
    ensures BatchOk(Drop(s, h), owed + NewlyOwed(s, h), busy, None, b)
  {
    var s', owed' := Drop(s, h), owed + NewlyOwed(s, h);
    if Started(s, b) {
      forall i: nat | i < |s.batches[b].tasks| && i < LinkedCount(s, busy, b)
        ensures (Waits(s', owed', b, i) <==> Waits(s, owed, b, i)) && Connected(s', owed', b, i)
      {
        DropWaits(s, h, owed, busy, s.holds[h].owner, b, i);
      }
      assert WaitSet(s', owed', busy, b) == WaitSet(s, owed, busy, b);
    }
  }

  lemma DropHolds(s: State, h: nat, owed: set<Position>, busy: Busy)
    requires h < |s.holds| && HoldsOk(s, owed, busy)
    ensures HoldsOk(Drop(s, h), owed + NewlyOwed(s, h), busy)
  {
    var s', owed' := Drop(s, h), owed + NewlyOwed(s, h);
    forall g, k | 0 <= g < |s.holds| && 0 <= k < |s.holds[g].handlers|
      ensures HandlerFits(s', owed', busy, g, s.holds[g].handlers[k])
    {
      assert HandlerFits(s, owed, busy, g, s.holds[g].handlers[k]);
    }
  }

  lemma DropOwed(s: State, h: nat, owed: set<Position>, busy: Busy)
    requires h < |s.holds| && HoldsOk(s, owed, busy) && OwedOk(s, owed, busy)
    ensures OwedOk(Drop(s, h), owed + NewlyOwed(s, h), busy)
  {
    forall k | 0 <= k < |s.holds[h].handlers|
      ensures HandlerFits(s, owed, busy, h, s.holds[h].handlers[k])
    {
    }
  }

  lemma DropTree(s: State, h: nat, busy: Busy)
    requires h < |s.holds| && TreeOk(s, busy, None)
    ensures TreeOk(Drop(s, h), busy, None)
  {
    var s' := Drop(s, h);
    forall b, i | 0 <= b < |s.batches| && 0 <= i < |s.batches[b].tasks|
      ensures TaskShaped(s', b, s.batches[b].tasks[i])
    {
      assert TaskShaped(s, b, s.batches[b].tasks[i]);
    }
  }

  lemma DropTrace(s: State, h: nat, busy: Busy)
    requires h < |s.holds| && TraceOk(s, busy)
    ensures TraceOk(Drop(s, h), busy)
  {
  }

  // One acquisition less: what waited on the hold alone is now owed a handler call, and nothing else changes.
  lemma DropKeeps(s: State, h: nat, owed: set<Position>, busy: Busy)
    requires h < |s.holds| && Inv(s, owed, busy, s.holds[h].owner, None)
    ensures Inv(Drop(s, h), owed + NewlyOwed(s, h), busy, None, None)
  {
    hide BatchOk, TreeOk, HoldsOk, TraceOk, OwedOk;
    var s', owed' := Drop(s, h), owed + NewlyOwed(s, h);
    forall b | 0 <= b < |s.batches|
      ensures BatchOk(s', owed', busy, None, b)
    {
      DropBatch(s, h, owed, busy, b);
    }
    DropHolds(s, h, owed, busy);
    DropOwed(s, h, owed, busy);
    DropTree(s, h, busy);
    DropTrace(s, h, busy);
  }

  // BatchOk carries over a step that changes neither the batch nor what it waits for.
  lemma BatchCarries(s: State, s': State, owed: set<Position>, owed': set<Position>, busy: Busy, busy': Busy,
                     extra: Option<nat>, extra': Option<nat>, b: nat)
    requires b < |s.batches| && BatchOk(s, owed, busy, extra, b)
    requires b < |s'.batches| && s'.batches[b] == s.batches[b]
    requires b in busy' <==> b in busy
    requires b in busy' ==> busy'[b].linked == busy[b].linked <= busy'[b].ran <= |s.batches[b].tasks|
    requires Started(s, b) ==>
               var h := s.batches[b].hold.value;
               && h < |s'.holds| && s'.holds[h].owner == s.holds[h].owner
               && s'.holds[h].acquisitions - (if extra' == Some(b) then 1 else 0)
                  == s.holds[h].acquisitions - (if extra == Some(b) then 1 else 0)
    requires !Started(s, b) ==> extra' != Some(b)
    requires Started(s, b) ==> forall i: nat :: i < |s.batches[b].tasks| && i < LinkedCount(s, busy, b) ==>
               (Waits(s', owed', b, i) <==> Waits(s, owed, b, i)) && Connected(s', owed', b, i)
    ensures BatchOk(s', owed', busy', extra', b)
  {
    if Started(s, b) {
      assert WaitSet(s', owed', busy', b) == WaitSet(s, owed, busy, b);
    }
  }

  // BatchOk carries over when only the hold count changes.
  lemma GainBatch(s: State, h: nat, owed: set<Position>, busy: Busy, b: nat)
    requires h < |s.holds| && s.holds[h].acquisitions > 0 && b < |s.batches|
    requires BatchOk(s, owed, busy, None, b)
    requires s.holds[h].owner == Some(b) ==> s.batches[b].hold == Some(h)
    ensures BatchOk(Gain(s, h), owed, busy, s.holds[h].owner, b)
  {
    var s' := Gain(s, h);
    forall i: nat | Started(s, b) && i < |s.batches[b].tasks| && i < LinkedCount(s, busy, b)
      ensures (Waits(s', owed, b, i) <==> Waits(s, owed, b, i)) && Connected(s', owed, b, i)
    {
      assert Connected(s, owed, b, i);
    }
    BatchCarries(s, s', owed, owed, busy, busy, None, s.holds[h].owner, b);
  }

  lemma GainHolds(s: State, h: nat, owed: set<Position>, busy: Busy)
    requires h < |s.holds| && s.holds[h].acquisitions > 0 && HoldsOk(s, owed, busy)
    ensures HoldsOk(Gain(s, h), owed, busy)
  {
    var s' := Gain(s, h);
    forall g, k | 0 <= g < |s.holds| && 0 <= k < |s.holds[g].handlers|
      ensures HandlerFits(s', owed, busy, g, s.holds[g].handlers[k])
    {
      assert HandlerFits(s, owed, busy, g, s.holds[g].handlers[k]);
    }
  }

  lemma GainRest(s: State, h: nat, owed: set<Position>, busy: Busy)
    requires h < |s.holds| && s.holds[h].acquisitions > 0
    requires TreeOk(s, busy, None) && TraceOk(s, busy) && OwedOk(s, owed, busy)
    ensures TreeOk(Gain(s, h), busy, None) && TraceOk(Gain(s, h), busy) && OwedOk(Gain(s, h), owed, busy)
  {
    var s' := Gain(s, h);
    forall b, i | 0 <= b < |s.batches| && 0 <= i < |s.batches[b].tasks|
      ensures TaskShaped(s', b, s.batches[b].tasks[i])
    {
      assert TaskShaped(s, b, s.batches[b].tasks[i]);
    }
  }

  // Another owner of an acquired hold: nothing that waited stops waiting, nothing new waits.
  lemma GainKeeps(s: State, h: nat, owed: set<Position>, busy: Busy)
    requires h < |s.holds| && Inv(s, owed, busy, None, None) && s.holds[h].acquisitions > 0
    ensures Inv(Gain(s, h), owed, busy, s.holds[h].owner, None)
  {
    hide BatchOk, TreeOk, TraceOk, OwedOk;
    var s' := Gain(s, h);
    GainHolds(s, h, owed, busy);
    GainRest(s, h, owed, busy);
    forall b | 0 <= b < |s.batches|
      ensures BatchOk(s', owed, busy, s.holds[h].owner, b)
    {
      GainBatch(s, h, owed, busy, b);
    }
  }

  lemma LogRunBatch(s: State, b: nat, owed: set<Position>, busy: Busy, a: nat)
    requires b < |s.batches| && a < |s.batches| && BatchOk(s, owed, busy, None, a)
    requires b in busy && busy[b].ran == busy[b].linked < |s.batches[b].tasks|
    ensures
      var i := busy[b].ran;
      BatchOk(LogRun(s, Position(b, i)), owed, busy[b := Progress(i + 1, i)], None, a)
  {
    var i := busy[b].ran;
    var s', busy' := LogRun(s, Position(b, i)), busy[b := Progress(i + 1, i)];
    forall j: nat | Started(s, a) && j < |s.batches[a].tasks| && j < LinkedCount(s, busy, a)
      ensures (Waits(s', owed, a, j) <==> Waits(s, owed, a, j)) && Connected(s', owed, a, j)
    {
      assert Connected(s, owed, a, j);
    }
    BatchCarries(s, s', owed, owed, busy, busy', None, None, a);
  }

  lemma LogRunHolds(s: State, b: nat, owed: set<Position>, busy: Busy)
    requires HoldsOk(s, owed, busy) && OwedOk(s, owed, busy) && TraceOk(s, busy)
    requires b in busy && b < |s.batches| && busy[b].ran == busy[b].linked < |s.batches[b].tasks|
    ensures
      var i := busy[b].ran;
      var s', busy' := LogRun(s, Position(b, i)), busy[b := Progress(i + 1, i)];
      HoldsOk(s', owed, busy') && OwedOk(s', owed, busy') && TraceOk(s', busy')
  {
    var i := busy[b].ran;
    var s', busy' := LogRun(s, Position(b, i)), busy[b := Progress(i + 1, i)];
    forall g, k | 0 <= g < |s.holds| && 0 <= k < |s.holds[g].handlers|
      ensures HandlerFits(s', owed, busy', g, s.holds[g].handlers[k])
    {
      assert HandlerFits(s, owed, busy, g, s.holds[g].handlers[k]);
    }
  }

  lemma LogRunTree(s: State, b: nat, busy: Busy)
    requires TreeOk(s, busy, None) && b in busy && b < |s.batches|
    requires busy[b].ran == busy[b].linked < |s.batches[b].tasks|
    ensures
      var i := busy[b].ran;
      var t := s.batches[b].tasks[i];
      && TreeOk(LogRun(s, Position(b, i)), busy[b := Progress(i + 1, i)], if t.Nested? then Some(t.batch) else None)
      && (t.Nested? ==> t.batch < b && !Started(s, t.batch))
  {
    var s' := LogRun(s, Position(b, busy[b].ran));
    forall a, j | 0 <= a < |s.batches| && 0 <= j < |s.batches[a].tasks|
      ensures TaskShaped(s', a, s.batches[a].tasks[j]) && TaskShaped(s, a, s.batches[a].tasks[j])
    {
      assert TaskShaped(s, a, s.batches[a].tasks[j]);
    }
  }

  lemma LogRunKeeps(s: State, b: nat, owed: set<Position>, busy: Busy)
    requires Inv(s, owed, busy, None, None) && b in busy && b < |s.batches|
    requires busy[b].ran == busy[b].linked < |s.batches[b].tasks|
    ensures
      var i := busy[b].ran;
      var t := s.batches[b].tasks[i];
      && Inv(LogRun(s, Position(b, i)), owed, busy[b := Progress(i + 1, i)], None,
             if t.Nested? then Some(t.batch) else None)
      && (t.Nested? ==> t.batch < b && !Started(s, t.batch))
  {
    hide BatchOk, TreeOk, HoldsOk, TraceOk, OwedOk;
    var i := busy[b].ran;
    var s', busy' := LogRun(s, Position(b, i)), busy[b := Progress(i + 1, i)];
    LogRunTree(s, b, busy);
    LogRunHolds(s, b, owed, busy);
    forall a | 0 <= a < |s.batches|
      ensures BatchOk(s', owed, busy', None, a)
    {
      LogRunBatch(s, b, owed, busy, a);
    }
  }

  lemma HoldAtValid(s: State, owed: set<Position>, busy: Busy, extra: Option<nat>, starting: Option<nat>,
                    b: nat, i: nat)
    requires Inv(s, owed, busy, extra, starting) && b < |s.batches| && i < |s.batches[b].tasks|
    ensures HoldAt(s, b, i).Some? ==> HoldAt(s, b, i).value < |s.holds|
  {
    var t := s.batches[b].tasks[i];
    assert TaskShaped(s, b, t);
    if t.Nested? {
      assert BatchOk(s, owed, busy, extra, t.batch);
    }
  }

  lemma BeginBatch(s: State, c: nat, owed: set<Position>, busy: Busy, a: nat)
    requires c < |s.batches| && Inv(s, owed, busy, None, Some(c)) && !Started(s, c) && a < |s.batches|
    ensures BatchOk(Begin(s, c), owed, busy[c := Progress(0, 0)], None, a)
  {
    var s', busy' := Begin(s, c), busy[c := Progress(0, 0)];
    assert BatchOk(s, owed, busy, None, a);
    if a == c {
      assert WaitSet(s', owed, busy', c) == {};
    } else {
      forall i: nat | Started(s, a) && i < |s.batches[a].tasks| && i < LinkedCount(s, busy, a)
        ensures (Waits(s', owed, a, i) <==> Waits(s, owed, a, i)) && Connected(s', owed, a, i)
      {
        assert Connected(s, owed, a, i);
        HoldAtValid(s, owed, busy, None, Some(c), a, i);
      }
      BatchCarries(s, s', owed, owed, busy, busy', None, None, a);
    }
  }

  lemma BeginHolds(s: State, c: nat, owed: set<Position>, busy: Busy)
    requires c < |s.batches| && !Started(s, c) && BatchOk(s, owed, busy, None, c)
    requires HoldsOk(s, owed, busy)
    ensures HoldsOk(Begin(s, c), owed, busy[c := Progress(0, 0)])
  {
    var s', busy' := Begin(s, c), busy[c := Progress(0, 0)];
    forall g, k | 0 <= g < |s.holds| && 0 <= k < |s.holds[g].handlers|
      ensures HandlerFits(s', owed, busy', g, s.holds[g].handlers[k])
    {
      assert HandlerFits(s, owed, busy, g, s.holds[g].handlers[k]);
    }
  }

  lemma BeginTree(s: State, c: nat, busy: Busy)
    requires c < |s.batches| && !Started(s, c) && c !in busy && TreeOk(s, busy, Some(c))
    ensures TreeOk(Begin(s, c), busy[c := Progress(0, 0)], None)
  {
    var s' := Begin(s, c);
    forall b, i | 0 <= b < |s.batches| && 0 <= i < |s.batches[b].tasks|
      ensures TaskShaped(s', b, s.batches[b].tasks[i])
    {
      assert TaskShaped(s, b, s.batches[b].tasks[i]);
    }
  }

  lemma BeginTrace(s: State, c: nat, owed: set<Position>, busy: Busy)
    requires c < |s.batches| && Inv(s, owed, busy, None, Some(c)) && !Started(s, c) && c !in busy
    ensures TraceOk(Begin(s, c), busy[c := Progress(0, 0)])
    ensures OwedOk(Begin(s, c), owed, busy[c := Progress(0, 0)])
  {
    forall o | o in owed
      ensures !Pending(Begin(s, c), o.batch, o.index)
    {
      HoldAtValid(s, owed, busy, None, Some(c), o.batch, o.index);
    }
  }

  lemma BeginKeeps(s: State, c: nat, owed: set<Position>, busy: Busy)
    requires c < |s.batches| && Inv(s, owed, busy, None, Some(c)) && !Started(s, c)
    ensures Inv(Begin(s, c), owed, busy[c := Progress(0, 0)], None, None)
  {
    var s', busy' := Begin(s, c), busy[c := Progress(0, 0)];
    assert BatchOk(s, owed, busy, None, c);
    BeginTree(s, c, busy);
    BeginHolds(s, c, owed, busy);
    forall a | 0 <= a < |s.batches|
      ensures BatchOk(s', owed, busy', None, a)
    {
      BeginBatch(s, c, owed, busy, a);
    }
    BeginTrace(s, c, owed, busy);
  }

  // A batch that has looked at its current task and goes on leaves that task behind.
  lemma LinkNothingKeeps(s: State, b: nat, owed: set<Position>, busy: Busy)
    requires Inv(s, owed, busy, None, None) && b in busy && b < |s.batches| && Started(s, b)
    requires busy[b].linked < |s.batches[b].tasks|
    requires busy[b].ran == busy[b].linked + 1 && !Pending(s, b, busy[b].linked)
    ensures Inv(s, owed, busy[b := Progress(busy[b].ran, busy[b].ran)], None, None)
  {
    var busy' := busy[b := Progress(busy[b].ran, busy[b].ran)];
    LinkNothingHolds(s, b, owed, busy);
    forall a | 0 <= a < |s.batches|
      ensures BatchOk(s, owed, busy', None, a)
    {
      assert BatchOk(s, owed, busy, None, a);
      if a == b {
        assert Position(b, busy[b].linked) !in owed;
        assert WaitSet(s, owed, busy', b) == WaitSet(s, owed, busy, b);
      } else {
        BatchCarries(s, s, owed, owed, busy, busy', None, None, a);
      }
    }
  }

  lemma LinkNothingHolds(s: State, b: nat, owed: set<Position>, busy: Busy)
    requires b in busy && b < |s.batches| && HoldsOk(s, owed, busy) && busy[b].linked <= busy[b].ran
    ensures HoldsOk(s, owed, busy[b := Progress(busy[b].ran, busy[b].ran)])
  {
    var busy' := busy[b := Progress(busy[b].ran, busy[b].ran)];
    forall g, k | 0 <= g < |s.holds| && 0 <= k < |s.holds[g].handlers|
      ensures HandlerFits(s, owed, busy', g, s.holds[g].handlers[k])
    {
      assert HandlerFits(s, owed, busy, g, s.holds[g].handlers[k]);
    }
  }

  lemma LinkHolds(s: State, b: nat, i: nat, h: nat, owed: set<Position>, busy: Busy, busy': Busy)
    requires b in busy && b < |s.batches| && Started(s, b) && busy[b].linked == i < |s.batches[b].tasks|
    requires h < |s.holds| && s.holds[h].acquisitions > 0 && HoldAt(s, b, i) == Some(h)
    requires HoldsOk(s, owed, busy) && LinkedCount(s, busy', b) == i + 1
    requires forall a :: a != b ==> (a in busy <==> a in busy') && (a in busy ==> busy[a] == busy'[a])
    ensures HoldsOk(Link(s, b, i, h), owed, busy')
  {
    var s' := Link(s, b, i, h);
    forall g, k | 0 <= g < |s.holds| && 0 <= k < |s.holds[g].handlers|
      ensures HandlerFits(s', owed, busy', g, s.holds[g].handlers[k])
      ensures s.holds[g].handlers[k].origin != Position(b, i)
    {
      assert HandlerFits(s, owed, busy, g, s.holds[g].handlers[k]);
    }
    var last := |s.holds[h].handlers|;
    assert HandlerFits(s', owed, busy', h, s'.holds[h].handlers[last]);
  }

  lemma LinkConnected(s: State, b: nat, i: nat, h: nat, owed: set<Position>, a: nat, j: nat)
    requires b < |s.batches| && Started(s, b) && i < |s.batches[b].tasks| && h < |s.holds|
    requires a < |s.batches| && j < |s.batches[a].tasks|
    requires Connected(s, owed, a, j) || (a == b && j == i && HoldAt(s, b, i) == Some(h))
    ensures Waits(Link(s, b, i, h), owed, a, j) <==> Waits(s, owed, a, j)
    ensures Connected(Link(s, b, i, h), owed, a, j)
  {
    var s' := Link(s, b, i, h);
    assert HoldAt(s', a, j) == HoldAt(s, a, j);
    var before, after := s.holds[h].handlers, s'.holds[h].handlers;
    assert after[|before|].origin == Position(b, i);
    forall o | o in Origins(before)
      ensures o in Origins(after)
    {
      var k :| 0 <= k < |before| && before[k].origin == o;
      assert after[k] == before[k];
    }
  }

  lemma LinkWaits(s: State, b: nat, i: nat, h: nat, owed: set<Position>, busy: Busy, busy': Busy, a: nat)
    requires b in busy && b < |s.batches| && Started(s, b) && busy[b].linked == i < |s.batches[b].tasks|
    requires HoldAt(s, b, i) == Some(h) && h < |s.holds| && LinkedCount(s, busy', b) == i + 1
    requires a < |s.batches| && Started(s, a) && (a != b ==> LinkedCount(s, busy', a) == LinkedCount(s, busy, a))
    requires forall j :: 0 <= j < |s.batches[a].tasks| && j < LinkedCount(s, busy, a) ==> Connected(s, owed, a, j)
    ensures forall j: nat :: j < |s.batches[a].tasks| && j < LinkedCount(s, busy', a) ==>
      && (Waits(Link(s, b, i, h), owed, a, j) <==> Waits(s, owed, a, j)) && Connected(Link(s, b, i, h), owed, a, j)
  {
    var s' := Link(s, b, i, h);
    forall j: nat | j < |s.batches[a].tasks| && j < LinkedCount(s, busy', a)
      ensures (Waits(s', owed, a, j) <==> Waits(s, owed, a, j)) && Connected(s', owed, a, j)
    {
      LinkConnected(s, b, i, h, owed, a, j);
    }
  }

  lemma LinkOther(s: State, b: nat, i: nat, h: nat, owed: set<Position>, busy: Busy, busy': Busy,
                  extra: Option<nat>, a: nat)
    requires b in busy && b < |s.batches| && Started(s, b) && busy[b].linked == i < |s.batches[b].tasks|
    requires HoldAt(s, b, i) == Some(h) && h < |s.holds| && LinkedCount(s, busy', b) == i + 1
    requires a < |s.batches| && a != b && BatchOk(s, owed, busy, extra, a) && extra != Some(a)
    requires (a in busy <==> a in busy') && (a in busy ==> busy[a] == busy'[a])
    ensures BatchOk(Link(s, b, i, h), owed, busy', None, a)
  {
    if Started(s, a) {
      LinkWaits(s, b, i, h, owed, busy, busy', a);
    }
    BatchCarries(s, Link(s, b, i, h), owed, owed, busy, busy', extra, None, a);
  }

  lemma LinkConcurrentOwn(s: State, b: nat, i: nat, h: nat, owed: set<Position>, busy: Busy)
    requires b in busy && b < |s.batches| && Started(s, b) && BatchOk(s, owed, busy, Some(b), b)
    requires s.batches[b].concurrent && busy[b] == Progress(i + 1, i) && i < |s.batches[b].tasks|
    requires HoldAt(s, b, i) == Some(h) && h < |s.holds| && s.holds[h].acquisitions > 0
    ensures BatchOk(Link(s, b, i, h), owed, busy[b := Progress(i + 1, i + 1)], None, b)
  {
    var s', busy' := Link(s, b, i, h), busy[b := Progress(i + 1, i + 1)];
    LinkWaits(s, b, i, h, owed, busy, busy', b);
    assert Waits(s', owed, b, i);
    var w, w' := WaitSet(s, owed, busy, b), WaitSet(s', owed, busy', b);
    assert forall j :: j in w' ==> j == i || j in w;
    assert w' == w + {i};
  }

  // A concurrent batch acquires its own hold until after the task's hold, then goes on.
  lemma LinkConcurrentKeeps(s: State, b: nat, i: nat, h: nat, owed: set<Position>, busy: Busy)
    requires Inv(s, owed, busy, Some(b), None) && b in busy && b < |s.batches| && Started(s, b)
    requires s.batches[b].concurrent && busy[b] == Progress(i + 1, i) && i < |s.batches[b].tasks|
    requires HoldAt(s, b, i) == Some(h) && h < |s.holds| && s.holds[h].acquisitions > 0
    ensures Inv(Link(s, b, i, h), owed, busy[b := Progress(i + 1, i + 1)], None, None)
  {
    hide BatchOk, TreeOk, HoldsOk, TraceOk, OwedOk;
    var s', busy' := Link(s, b, i, h), busy[b := Progress(i + 1, i + 1)];
    LinkHolds(s, b, i, h, owed, busy, busy');
    forall a | 0 <= a < |s.batches|
      ensures BatchOk(s', owed, busy', None, a)
    {
      if a == b {
        LinkConcurrentOwn(s, b, i, h, owed, busy);
      } else {
        LinkOther(s, b, i, h, owed, busy, busy', Some(b), a);
      }
    }
    LinkTree(s, b, i, h, busy, busy');
    LinkTrace(s, b, i, h, owed, busy, busy');
  }

  lemma LinkConsecutiveOwn(s: State, b: nat, i: nat, h: nat, owed: set<Position>, busy: Busy)
    requires b in busy && b < |s.batches| && Started(s, b) && BatchOk(s, owed, busy, None, b)
    requires !s.batches[b].concurrent && busy[b] == Progress(i + 1, i) && i < |s.batches[b].tasks|
    requires s.batches[b].currentTaskIndex == i
    requires HoldAt(s, b, i) == Some(h) && h < |s.holds| && s.holds[h].acquisitions > 0
    ensures BatchOk(Link(s, b, i, h), owed, busy - {b}, None, b)
  {
    LinkWaits(s, b, i, h, owed, busy, busy - {b}, b);
  }

  // A consecutive batch waits for the task's hold, and is at rest until then.
  lemma LinkConsecutiveKeeps(s: State, b: nat, i: nat, h: nat, owed: set<Position>, busy: Busy)
    requires Inv(s, owed, busy, None, None) && b in busy && b < |s.batches| && Started(s, b)
    requires !s.batches[b].concurrent && busy[b] == Progress(i + 1, i) && i < |s.batches[b].tasks|
    requires s.batches[b].currentTaskIndex == i
    requires HoldAt(s, b, i) == Some(h) && h < |s.holds| && s.holds[h].acquisitions > 0
    ensures Inv(Link(s, b, i, h), owed, busy - {b}, None, None)
  {
    hide BatchOk, TreeOk, HoldsOk, TraceOk, OwedOk;
    var s', busy' := Link(s, b, i, h), busy - {b};
    LinkHolds(s, b, i, h, owed, busy, busy');
    forall a | 0 <= a < |s.batches|
      ensures BatchOk(s', owed, busy', None, a)
    {
      if a == b {
        LinkConsecutiveOwn(s, b, i, h, owed, busy);
      } else {
        LinkOther(s, b, i, h, owed, busy, busy', None, a);
      }
    }
    LinkTree(s, b, i, h, busy, busy');
    LinkTrace(s, b, i, h, owed, busy, busy');
  }

  lemma LinkTree(s: State, b: nat, i: nat, h: nat, busy: Busy, busy': Busy)
    requires TreeOk(s, busy, None) && b in busy && b < |s.batches| && Started(s, b) && i < |s.batches[b].tasks|
    requires busy[b] == Progress(i + 1, i) && h < |s.holds|
    requires RanCount(s, busy', b) == i + 1 == LinkedCount(s, busy', b)
    requires forall a :: a != b ==> (a in busy <==> a in busy') && (a in busy ==> busy[a] == busy'[a])
    ensures TreeOk(Link(s, b, i, h), busy', None)
  {
    var s' := Link(s, b, i, h);
    forall a, j | 0 <= a < |s.batches| && 0 <= j < |s.batches[a].tasks|
      ensures TaskShaped(s', a, s.batches[a].tasks[j])
    {
      assert TaskShaped(s, a, s.batches[a].tasks[j]);
    }
  }

  lemma LinkTrace(s: State, b: nat, i: nat, h: nat, owed: set<Position>, busy: Busy, busy': Busy)
    requires TraceOk(s, busy) && OwedOk(s, owed, busy) && b in busy && b < |s.batches| && Started(s, b)
    requires i < |s.batches[b].tasks|
    requires busy[b] == Progress(i + 1, i) && h < |s.holds|
    requires RanCount(s, busy', b) == i + 1 == LinkedCount(s, busy', b)
    requires forall a :: a != b ==> (a in busy <==> a in busy') && (a in busy ==> busy[a] == busy'[a])
    ensures TraceOk(Link(s, b, i, h), busy') && OwedOk(Link(s, b, i, h), owed, busy')
  {
  }

  lemma IndexBatch(s: State, b: nat, owed: set<Position>, busy: Busy, busy': Busy, extra: Option<nat>, i: nat, a: nat)
    requires b < |s.batches| && a < |s.batches| && BatchOk(s, owed, busy, None, a) && Started(s, b) && b in busy
    requires forall c :: c != b ==> (c in busy <==> c in busy') && (c in busy ==> busy[c] == busy'[c])
    requires LinkedCount(WithIndex(s, b, i), busy', b) == LinkedCount(s, busy, b)
    requires b in busy' ==> busy' == busy && extra == None
    requires b !in busy' ==> i >= |s.batches[b].tasks| && extra == Some(b)
    ensures BatchOk(WithIndex(s, b, i), owed, busy', extra, a)
  {
    var s' := WithIndex(s, b, i);
    forall j: nat | Started(s, a) && j < |s.batches[a].tasks| && j < LinkedCount(s, busy, a)
      ensures (Waits(s', owed, a, j) <==> Waits(s, owed, a, j)) && Connected(s', owed, a, j)
    {
      assert Connected(s, owed, a, j);
    }
    if a == b {
      assert WaitSet(s', owed, busy', b) == WaitSet(s, owed, busy, b);
    } else {
      BatchCarries(s, s', owed, owed, busy, busy', None, extra, a);
    }
  }

  // The last task is behind: the batch gives up the acquisition it was started with.
  lemma FinishKeeps(s: State, b: nat, owed: set<Position>, busy: Busy, i: nat)
    requires Inv(s, owed, busy, None, None) && b in busy && b < |s.batches| && Started(s, b)
    requires busy[b] == Progress(|s.batches[b].tasks|, |s.batches[b].tasks|) && i >= |s.batches[b].tasks|
    ensures Inv(WithIndex(s, b, i), owed, busy - {b}, Some(b), None)
  {
    hide BatchOk, TreeOk, HoldsOk, TraceOk, OwedOk;
    var s', busy' := WithIndex(s, b, i), busy - {b};
    FinishTree(s, s', owed, busy, busy');
    forall a | 0 <= a < |s.batches|
      ensures BatchOk(s', owed, busy', Some(b), a)
    {
      IndexBatch(s, b, owed, busy, busy', Some(b), i, a);
    }
  }

  // A step that only moves indices, and moves no batch relative to its tasks.
  lemma FinishTree(s: State, s': State, owed: set<Position>, busy: Busy, busy': Busy)
    requires s'.holds == s.holds && s'.trace == s.trace && |s'.batches| == |s.batches|
    requires forall a :: 0 <= a < |s.batches| ==>
               && s'.batches[a].tasks == s.batches[a].tasks && s'.batches[a].hold == s.batches[a].hold
               && s'.batches[a].concurrent == s.batches[a].concurrent
               && RanCount(s', busy', a) == RanCount(s, busy, a)
               && LinkedCount(s', busy', a) == LinkedCount(s, busy, a)
    requires TreeOk(s, busy, None) && HoldsOk(s, owed, busy) && TraceOk(s, busy) && OwedOk(s, owed, busy)
    ensures TreeOk(s', busy', None) && HoldsOk(s', owed, busy') && TraceOk(s', busy') && OwedOk(s', owed, busy')
  {
    forall a, j | 0 <= a < |s.batches| && 0 <= j < |s.batches[a].tasks|
      ensures TaskShaped(s', a, s.batches[a].tasks[j])
    {
      assert TaskShaped(s, a, s.batches[a].tasks[j]);
    }
    forall g, k | 0 <= g < |s.holds| && 0 <= k < |s.holds[g].handlers|
      ensures HandlerFits(s', owed, busy', g, s.holds[g].handlers[k])
    {
      assert HandlerFits(s, owed, busy, g, s.holds[g].handlers[k]);
    }
  }

  // ---------- telling a waiting batch ----------

  lemma ToldHolds(s: State, h: nat, x: Handler, owed: set<Position>, busy: Busy, busy': Busy)
    requires h < |s.holds| && HoldsOk(s, owed, busy) && x in s.holds[h].handlers
    requires forall a :: 0 <= a < |s.batches| ==> LinkedCount(s, busy', a) == LinkedCount(s, busy, a)
    ensures HoldsOk(Disconnect(s, h, x), owed - {x.origin}, busy')
    ensures forall y :: y in s.holds[h].handlers && y != x ==> y.origin != x.origin
  {
    var s' := Disconnect(s, h, x);
    OriginsDistinct(s.holds[h].handlers, x);
    forall g, k | 0 <= g < |s'.holds| && 0 <= k < |s'.holds[g].handlers|
      ensures HandlerFits(s', owed - {x.origin}, busy', g, s'.holds[g].handlers[k])
    {
      ToldHandler(s, h, x, owed, busy, busy', g, s'.holds[g].handlers[k]);
    }
  }

  lemma ToldHandler(s: State, h: nat, x: Handler, owed: set<Position>, busy: Busy, busy': Busy, g: nat, y: Handler)
    requires h < |s.holds| && HoldsOk(s, owed, busy) && x in s.holds[h].handlers
    requires forall a :: 0 <= a < |s.batches| ==> LinkedCount(s, busy', a) == LinkedCount(s, busy, a)
    requires g < |s.holds| && y in Disconnect(s, h, x).holds[g].handlers
    ensures HandlerFits(Disconnect(s, h, x), owed - {x.origin}, busy', g, y)
  {
    var l :| 0 <= l < |s.holds[g].handlers| && s.holds[g].handlers[l] == y;
    assert HandlerFits(s, owed, busy, g, s.holds[g].handlers[l]);
    var m :| 0 <= m < |s.holds[h].handlers| && s.holds[h].handlers[m] == x;
    assert HandlerFits(s, owed, busy, h, s.holds[h].handlers[m]);
  }

  lemma OriginsDistinct(hs: seq<Handler>, x: Handler)
    requires forall k, l :: 0 <= k < l < |hs| ==> hs[k].origin != hs[l].origin
    ensures forall k, l :: 0 <= k < l < |Without(hs, x)| ==> Without(hs, x)[k].origin != Without(hs, x)[l].origin
  {
    if hs != [] {
      var rest := Without(hs[1..], x);
      OriginsDistinct(hs[1..], x);
      forall k | 0 <= k < |rest|
        ensures rest[k].origin != hs[0].origin
      {
        assert rest[k] in hs[1..];
      }
    }
  }

  // Only the told position stops waiting.
  lemma ToldWaits(s: State, h: nat, x: Handler, owed: set<Position>, b: nat, i: nat)
    requires h < |s.holds| && x in s.holds[h].handlers && b < |s.batches| && i < |s.batches[b].tasks|
    requires Connected(s, owed, b, i)
    requires x.origin.batch < |s.batches| && x.origin.index < |s.batches[x.origin.batch].tasks|
    requires !Pending(s, x.origin.batch, x.origin.index)
    ensures var s', owed' := Disconnect(s, h, x), owed - {x.origin};
      && Connected(s', owed', b, i)
      && (Waits(s', owed', b, i) <==> Waits(s, owed, b, i) && Position(b, i) != x.origin)
  {
    var s', owed' := Disconnect(s, h, x), owed - {x.origin};
    assert HoldAt(s', b, i) == HoldAt(s, b, i);
    if Waits(s', owed', b, i) {
      var g := HoldAt(s, b, i).value;
      var k :| 0 <= k < |s.holds[g].handlers| && s.holds[g].handlers[k].origin == Position(b, i);
      assert s.holds[g].handlers[k] in s'.holds[g].handlers;
      var m :| 0 <= m < |s'.holds[g].handlers| && s'.holds[g].handlers[m] == s.holds[g].handlers[k];
      assert Position(b, i) in Origins(s'.holds[g].handlers);
    }
  }

  lemma ToldEachWait(s: State, h: nat, x: Handler, owed: set<Position>, busy: Busy, a: nat)
    requires Inv(s, owed, busy, None, None) && h < |s.holds| && x in s.holds[h].handlers && x.origin in owed
    requires a < |s.batches| && Started(s, a)
    ensures forall j: nat :: j < |s.batches[a].tasks| && j < LinkedCount(s, busy, a) ==>
      && (Waits(Disconnect(s, h, x), owed - {x.origin}, a, j) <==> Waits(s, owed, a, j) && Position(a, j) != x.origin)
      && Connected(Disconnect(s, h, x), owed - {x.origin}, a, j)
  {
    var s', owed' := Disconnect(s, h, x), owed - {x.origin};
    assert BatchOk(s, owed, busy, None, a);
    forall j: nat | j < |s.batches[a].tasks| && j < LinkedCount(s, busy, a)
      ensures Waits(s', owed', a, j) <==> Waits(s, owed, a, j) && Position(a, j) != x.origin
      ensures Connected(s', owed', a, j)
    {
      assert Connected(s, owed, a, j);
      ToldWaits(s, h, x, owed, a, j);
    }
  }

  lemma ToldOther(s: State, h: nat, x: Handler, owed: set<Position>, busy: Busy, busy': Busy, extra: Option<nat>,
                  a: nat)
    requires Inv(s, owed, busy, None, None) && h < |s.holds| && x in s.holds[h].handlers && x.origin in owed
    requires a < |s.batches| && a != x.origin.batch && extra != Some(a)
    requires (a in busy <==> a in busy') && (a in busy ==> busy[a] == busy'[a])
    ensures BatchOk(Disconnect(s, h, x), owed - {x.origin}, busy', extra, a)
  {
    assert BatchOk(s, owed, busy, None, a);
    if Started(s, a) {
      ToldEachWait(s, h, x, owed, busy, a);
    }
    BatchCarries(s, Disconnect(s, h, x), owed, owed - {x.origin}, busy, busy', None, extra, a);
  }

  lemma ToldConcurrent(s: State, h: nat, x: Handler, owed: set<Position>, busy: Busy)
    requires Inv(s, owed, busy, None, None) && h < |s.holds| && x in s.holds[h].handlers && x.origin in owed
    requires x.origin.batch !in busy && s.batches[x.origin.batch].concurrent
    ensures BatchOk(Disconnect(s, h, x), owed - {x.origin}, busy, Some(x.origin.batch), x.origin.batch)
  {
    hide TraceOk, TreeOk, OwedOk;
    var b, s', owed' := x.origin.batch, Disconnect(s, h, x), owed - {x.origin};
    assert BatchOk(s, owed, busy, None, b);
    ToldEachWait(s, h, x, owed, busy, b);
    assert Waits(s, owed, b, x.origin.index);
    var w, w' := WaitSet(s, owed, busy, b), WaitSet(s', owed', busy, b);
    assert forall j :: j in w <==> j in w' || j == x.origin.index;
    assert w == w' + {x.origin.index};
  }

  lemma ToldConsecutive(s: State, h: nat, x: Handler, owed: set<Position>, busy: Busy)
    requires Inv(s, owed, busy, None, None) && h < |s.holds| && x in s.holds[h].handlers && x.origin in owed
    requires x.origin.batch !in busy && !s.batches[x.origin.batch].concurrent
    ensures x.origin.index == s.batches[x.origin.batch].currentTaskIndex
    ensures BatchOk(Disconnect(s, h, x), owed - {x.origin},
                    busy[x.origin.batch := Progress(x.origin.index + 1, x.origin.index + 1)], None, x.origin.batch)
  {
    var b := x.origin.batch;
    assert BatchOk(s, owed, busy, None, b);
    assert Waits(s, owed, b, x.origin.index);
    ToldEachWait(s, h, x, owed, busy, b);
  }

  // Running a connected handler disconnects it; a consecutive batch is then about to go on, and a concurrent batch to
  // drop the acquisition it held for the task.
  lemma ToldKeeps(s: State, h: nat, x: Handler, owed: set<Position>, busy: Busy)
    requires Inv(s, owed, busy, None, None) && h < |s.holds| && x in s.holds[h].handlers && x.origin in owed
    requires x.origin.batch !in busy
    ensures
      var b, s', owed' := x.origin.batch, Disconnect(s, h, x), owed - {x.origin};
      if s.batches[b].concurrent then
        Inv(s', owed', busy, Some(b), None)
      else
        && x.origin.index == s.batches[b].currentTaskIndex
        && Inv(s', owed', busy[b := Progress(x.origin.index + 1, x.origin.index + 1)], None, None)
  {
    var b, s', owed' := x.origin.batch, Disconnect(s, h, x), owed - {x.origin};
    var o := x.origin;
    var busy' := if s.batches[b].concurrent then busy else busy[b := Progress(o.index + 1, o.index + 1)];
    var extra := if s.batches[b].concurrent then Some(b) else None;
    if !s.batches[b].concurrent {
      ToldConsecutive(s, h, x, owed, busy);
    }
    forall a | 0 <= a < |s.batches|
      ensures BatchOk(s', owed', busy', extra, a)
    {
      if a != b {
        ToldOther(s, h, x, owed, busy, busy', extra, a);
      } else if s.batches[b].concurrent {
        ToldConcurrent(s, h, x, owed, busy);
      } else {
        ToldConsecutive(s, h, x, owed, busy);
      }
    }
    ToldHolds(s, h, x, owed, busy, busy');
    ToldTree(s, h, x, owed, busy, busy');
  }

  lemma ToldTree(s: State, h: nat, x: Handler, owed: set<Position>, busy: Busy, busy': Busy)
    requires TreeOk(s, busy, None) && TraceOk(s, busy) && OwedOk(s, owed, busy) && h < |s.holds|
    requires forall a :: 0 <= a < |s.batches| ==> LinkedCount(s, busy', a) == LinkedCount(s, busy, a)
    requires forall a :: 0 <= a < |s.batches| ==> RanCount(s, busy', a) == RanCount(s, busy, a)
    ensures TreeOk(Disconnect(s, h, x), busy', None) && TraceOk(Disconnect(s, h, x), busy')
    ensures OwedOk(Disconnect(s, h, x), owed - {x.origin}, busy')
  {
    var s' := Disconnect(s, h, x);
    forall a, j | 0 <= a < |s.batches| && 0 <= j < |s.batches[a].tasks|
      ensures TaskShaped(s', a, s.batches[a].tasks[j])
    {
      assert TaskShaped(s, a, s.batches[a].tasks[j]);
    }
  }

  // ---------- the objects ----------

  // What no method below changes: the shape of the batches, the holds made with `new Hold()`, the hold of a batch
  // already started, and everything about the batches in `kept`.
  ghost predicate Framed(s: State, s': State, kept: set<nat>) {
    && |s'.batches| == |s.batches| && |s.holds| <= |s'.holds|
    && (forall b {:trigger s'.batches[b]} :: 0 <= b < |s.batches| ==>
         && s'.batches[b].tasks == s.batches[b].tasks && s'.batches[b].concurrent == s.batches[b].concurrent
         && (Started(s, b) ==> s'.batches[b].hold == s.batches[b].hold)
         && (b in kept ==> s'.batches[b] == s.batches[b]))
    && (forall h {:trigger s'.holds[h]} :: 0 <= h < |s.holds| ==>
         && s'.holds[h].owner == s.holds[h].owner
         && (s.holds[h].owner == None ==> s'.holds[h].acquisitions == s.holds[h].acquisitions))
    && (forall h {:trigger s'.holds[h]} :: |s.holds| <= h < |s'.holds| ==> s'.holds[h].owner.Some?)
  }

  lemma FramedChain(s: State, s': State, s'': State, kept: set<nat>, kept': set<nat>)
    requires Framed(s, s', kept) && Framed(s', s'', kept')
    ensures Framed(s, s'', kept * kept')
  {
    forall b | 0 <= b < |s.batches|
      ensures s''.batches[b].tasks == s.batches[b].tasks && s''.batches[b].concurrent == s.batches[b].concurrent
      ensures Started(s, b) ==> s''.batches[b].hold == s.batches[b].hold
      ensures b in kept * kept' ==> s''.batches[b] == s.batches[b]
    {
      assert s'.batches[b].tasks == s.batches[b].tasks;
    }
    forall h | 0 <= h < |s.holds|
      ensures s''.holds[h].owner == s.holds[h].owner
      ensures s.holds[h].owner == None ==> s''.holds[h].acquisitions == s.holds[h].acquisitions
    {
      assert s'.holds[h].owner == s.holds[h].owner;
    }
    forall h | |s.holds| <= h < |s''.holds|
      ensures s''.holds[h].owner.Some?
    {
      assert h < |s'.holds| ==> s'.holds[h].owner.Some?;
    }
  }

  // No batch is listening to b yet: it is not nested, or its parent is still inside the process() that runs it.
  ghost predicate Unheard(s: State, busy: Busy, b: nat) {
    forall p, j {:trigger s.batches[p].tasks[j]} ::
      0 <= p < |s.batches| && 0 <= j < |s.batches[p].tasks| && s.batches[p].tasks[j] == Nested(b) ==>
        p in busy && busy[p].linked <= j
  }

  // The calls a method may lead to are bounded by `up`: 0 when nobody listens to b, otherwise by how many batches are
  // younger than b, since only a younger batch can hold b.
  ghost predicate Bounded(s: State, busy: Busy, b: nat, up: nat)
    requires b < |s.batches|
  {
    if up == 0 then Unheard(s, busy - {b}, b) else up == |s.batches| - b && busy - {b} == map[]
  }

  ghost predicate HandlersBounded(s: State, busy: Busy, h: nat, up: nat)
    requires h < |s.holds|
  {
    && (s.holds[h].handlers != [] ==> busy == map[])
    && forall k :: 0 <= k < |s.holds[h].handlers| ==> |s.batches| - s.holds[h].handlers[k].origin.batch < up
  }

  lemma BoundedHandlers(s: State, owed: set<Position>, busy: Busy, extra: Option<nat>, b: nat, up: nat)
    requires Inv(s, owed, busy, extra, None) && b < |s.batches| && Started(s, b) && b !in busy
    requires Bounded(s, busy, b, up)
    ensures s.batches[b].hold.value < |s.holds| && s.holds[s.batches[b].hold.value].owner == Some(b)
    ensures HandlersBounded(s, busy, s.batches[b].hold.value, up)
  {
    assert BatchOk(s, owed, busy, extra, b);
    assert busy - {b} == busy;
    var h := s.batches[b].hold.value;
    forall k | 0 <= k < |s.holds[h].handlers|
      ensures up != 0 && |s.batches| - s.holds[h].handlers[k].origin.batch < up
    {
      var x := s.holds[h].handlers[k];
      assert HandlerFits(s, owed, busy, h, x);
      var t := s.batches[x.origin.batch].tasks[x.origin.index];
      assert TaskShaped(s, x.origin.batch, t);
      if t.Nested? {
        assert BatchOk(s, owed, busy, extra, t.batch);
        assert t.batch == b;
      }
    }
    if s.holds[h].handlers != [] {
      assert |s.batches| - s.holds[h].handlers[0].origin.batch < up;
    }
  }

  // Between two handlers of one emission: the next one is still connected, and only its position becomes told.
  lemma Emission(before: State, s: State, h: nat, k: nat, owed: set<Position>, busy: Busy)
    requires h < |before.holds| && Inv(before, owed, busy, before.holds[h].owner, None)
    requires before.holds[h].acquisitions == 1 && k < |before.holds[h].handlers|
    requires Framed(before, s, {}) || Framed(Drop(before, h), s, {})
    requires Inv(s, owed + Origins(before.holds[h].handlers[k..]), busy, None, None)
    ensures
      var hs := before.holds[h].handlers;
      var rest := owed + Origins(hs[k + 1..]);
      && h < |s.holds| && hs[k] in s.holds[h].handlers
      && hs[k].origin !in rest && rest + {hs[k].origin} == owed + Origins(hs[k..])
  {
    var hs := before.holds[h].handlers;
    var x := hs[k];
    var o := x.origin;
    assert HandlerFits(before, owed, busy, h, x);
    assert HoldAt(before, o.batch, o.index) == Some(h);
    assert hs[k..][0] == x && hs[k + 1..] == hs[k..][1..];
    assert o in Origins(hs[k..]);
    assert o !in owed;
    assert o !in Origins(hs[k + 1..]);
    OriginsHead(hs[k..]);
    var s0 := Drop(before, h);
    assert HoldAt(s, o.batch, o.index) == Some(h) by {
      var t := before.batches[o.batch].tasks[o.index];
      assert TaskShaped(before, o.batch, t);
      assert s.batches[o.batch].tasks == before.batches[o.batch].tasks;
      if t.Nested? {
        assert Started(before, t.batch);
        assert s.batches[t.batch].hold == Some(h);
      }
    }
    StillConnected(s, owed + Origins(hs[k..]), busy, h, x);
  }

  lemma OriginsHead(hs: seq<Handler>)
    requires hs != []
    ensures Origins(hs) == {hs[0].origin} + Origins(hs[1..])
  {
    forall o | o in Origins(hs)
      ensures o in {hs[0].origin} + Origins(hs[1..])
    {
      var k :| 0 <= k < |hs| && hs[k].origin == o;
      if k > 0 {
        assert hs[1..][k - 1].origin == o;
      }
    }
    forall o | o in Origins(hs[1..])
      ensures o in Origins(hs)
    {
      var k :| 0 <= k < |hs[1..]| && hs[1..][k].origin == o;
      assert hs[k + 1].origin == o;
    }
  }

  // A handler whose position is owed is still connected.
  lemma StillConnected(s: State, owed: set<Position>, busy: Busy, h: nat, x: Handler)
    requires Inv(s, owed, busy, None, None) && x.origin in owed && h < |s.holds|
    requires HoldAt(s, x.origin.batch, x.origin.index) == Some(h)
    requires x == (if s.batches[x.origin.batch].concurrent
                   then ReleaseHold(s.batches[x.origin.batch].hold.value, x.origin)
                   else AdvanceBatch(x.origin.batch, x.origin))
    ensures x in s.holds[h].handlers
  {
    assert BatchOk(s, owed, busy, None, x.origin.batch);
    assert Connected(s, owed, x.origin.batch, x.origin.index);
    var k :| 0 <= k < |s.holds[h].handlers| && s.holds[h].handlers[k].origin == x.origin;
    assert HandlerFits(s, owed, busy, h, s.holds[h].handlers[k]);
  }

  lemma AdvanceKeeps(s: State, b: nat, owed: set<Position>, busy: Busy, i: nat)
    requires Inv(s, owed, busy, None, None) && b in busy && b < |s.batches| && Started(s, b)
    ensures Inv(WithIndex(s, b, i), owed, busy, None, None)
  {
    hide BatchOk, TreeOk, HoldsOk, TraceOk, OwedOk;
    var s' := WithIndex(s, b, i);
    FinishTree(s, s', owed, busy, busy);
    forall a | 0 <= a < |s.batches|
      ensures BatchOk(s', owed, busy, None, a)
    {
      IndexBatch(s, b, owed, busy, busy, None, i, a);
    }
  }

  lemma BoundedFramed(s: State, s': State, busy: Busy, busy': Busy, b: nat, up: nat)
    requires b < |s.batches| == |s'.batches| && Bounded(s, busy, b, up)
    requires forall a {:trigger s'.batches[a]} :: 0 <= a < |s.batches| ==> s'.batches[a].tasks == s.batches[a].tasks
    requires busy - {b} == busy' - {b}
    ensures Bounded(s', busy', b, up)
  {
  }

  lemma HandlerShape(s: State, h: nat, x: Handler, owed: set<Position>)
    requires Inv(s, owed, map[], None, None) && h < |s.holds| && x in s.holds[h].handlers && x.origin in owed
    ensures HandlerFits(s, owed, map[], h, x)
    ensures Disconnect(s, h, x).batches == s.batches
    ensures 0 <= s.batches[x.origin.batch].currentTaskIndex
    ensures Reached(s, x.origin.batch) <= |s.batches[x.origin.batch].tasks|
  {
    var k :| 0 <= k < |s.holds[h].handlers| && s.holds[h].handlers[k] == x;
    assert HandlerFits(s, owed, map[], h, s.holds[h].handlers[k]);
    assert BatchOk(s, owed, map[], None, x.origin.batch);
  }

  // Dropping a batch's own hold is no change to what Framed speaks of.
  lemma FramedDrop(s: State, s': State, s'': State, h: nat, kept: set<nat>)
    requires h < |s'.holds| && s'.holds[h].owner.Some?
    requires Framed(s, s', kept) && Framed(Drop(s', h), s'', kept)
    ensures Framed(s, s'', kept)
  {
    assert Framed(s', Drop(s', h), kept);
    FramedChain(s', Drop(s', h), s'', kept, kept);
    FramedChain(s, s', s'', kept, kept);
    assert kept * kept == kept;
  }

  lemma OwnHold(s: State, owed: set<Position>, busy: Busy, b: nat)
    requires Inv(s, owed, busy, None, None) && b in busy && b < |s.batches| && Started(s, b)
    ensures
      var h := s.batches[b].hold.value;
      h < |s.holds| && s.holds[h].owner == Some(b) && s.holds[h].acquisitions > 0
  {
    assert BatchOk(s, owed, busy, None, b);
  }

  // The batch holding c is inside the process() that runs c.
  lemma NestedUnheard(s: State, owed: set<Position>, busy: Busy, b: nat, i: nat, c: nat)
    requires Inv(s, owed, busy, None, None) && b in busy && b < |s.batches| && i < |s.batches[b].tasks|
    requires s.batches[b].tasks[i] == Nested(c) && busy[b] == Progress(i, i)
    ensures c < b && c !in busy && !Started(s, c)
    ensures Unheard(LogRun(s, Position(b, i)), busy[b := Progress(i + 1, i)], c)
  {
    assert TaskShaped(s, b, s.batches[b].tasks[i]);
    assert BatchOk(s, owed, busy, None, c);
  }

  // A concurrent batch's `this.hold.acquireUntilAfter(hold)` after running task i.
  ghost function Watched(s: State, b: nat, i: nat): State
    requires b < |s.batches| && Started(s, b) && s.batches[b].hold.value < |s.holds| && i < |s.batches[b].tasks|
  {
    if Pending(s, b, i) then Link(Gain(s, s.batches[b].hold.value), b, i, HoldAt(s, b, i).value) else s
  }

  lemma WatchKeeps(s: State, b: nat, i: nat, owed: set<Position>, busy: Busy, busy': Busy)
    requires Inv(s, owed, busy, None, None) && b in busy && b < |s.batches| && Started(s, b)
    requires s.batches[b].concurrent && busy[b] == Progress(i + 1, i) && i < |s.batches[b].tasks|
    requires busy' == busy[b := Progress(i + 1, i + 1)]
    ensures s.batches[b].hold.value < |s.holds| && s.holds[s.batches[b].hold.value].acquisitions > 0
    ensures Inv(Watched(s, b, i), owed, busy', None, None)
    ensures Framed(s, Watched(s, b, i), busy.Keys)
  {
    hide Inv;
    OwnHold(s, owed, busy, b);
    if Pending(s, b, i) {
      GainKeeps(s, s.batches[b].hold.value, owed, busy);
      LinkConcurrentKeeps(Gain(s, s.batches[b].hold.value), b, i, HoldAt(s, b, i).value, owed, busy);
    } else {
      LinkNothingKeeps(s, b, owed, busy);
    }
  }

  // ---------- calls made from outside ----------

  // Batch.cancel: tasks.splice(0, currentTaskIndex + 1). Before run() the index is undefined and the splice keeps
  // nothing, which -1 + 1 gives as well.
  ghost function Cancelled(s: State, b: nat): State
    requires b < |s.batches| && -1 <= s.batches[b].currentTaskIndex
  {
    s.(batches := s.batches[b := s.batches[b].(tasks := Spliced(s.batches[b]))])
  }

  function Spliced(x: BatchObject): (r: seq<Task>)
    requires -1 <= x.currentTaskIndex
    ensures r <= x.tasks
    ensures |r| <= x.currentTaskIndex + 1
  {
    if x.currentTaskIndex + 1 <= |x.tasks| then x.tasks[..x.currentTaskIndex + 1] else x.tasks
  }

  ghost function WithNewHold(s: State): State {
    s.(holds := s.holds + [HoldObject(1, [], None)])
  }

  ghost function WithNewBatch(s: State, concurrent: bool, tasks: seq<Task>): State {
    s.(batches := s.batches + [BatchObject(concurrent, tasks, -1, None)])
  }

  predicate IsRoot(batches: seq<BatchObject>, c: nat) {
    forall b, i :: 0 <= b < |batches| && 0 <= i < |batches[b].tasks| ==> batches[b].tasks[i] != Nested(c)
  }

  // The tasks given to a new batch exist, and a batch among them is used nowhere else and has not been run.
  predicate UsableTasks(holds: seq<HoldObject>, batches: seq<BatchObject>, tasks: seq<Task>) {
    && (forall i :: 0 <= i < |tasks| ==>
         match tasks[i]
         case Action(None) => true
         case Action(Some(h)) => h < |holds| && holds[h].owner == None
         case Nested(c) => c < |batches| && batches[c].hold == None && IsRoot(batches, c))
    && (forall i, j :: 0 <= i < j < |tasks| && tasks[i].Nested? ==> tasks[i] != tasks[j])
  }

  lemma CancelBatch(s: State, b: nat, a: nat)
    requires b < |s.batches| && a < |s.batches| && -1 <= s.batches[b].currentTaskIndex
    requires BatchOk(s, {}, map[], None, a)
    ensures BatchOk(Cancelled(s, b), {}, map[], None, a)
    ensures Reached(Cancelled(s, b), a) == Reached(s, a)
  {
    var s' := Cancelled(s, b);
    forall i: nat | Started(s, a) && i < Reached(s, a)
      ensures (Waits(s', {}, a, i) <==> Waits(s, {}, a, i)) && Connected(s', {}, a, i)
    {
      assert Connected(s, {}, a, i);
      assert s'.batches[a].tasks[i] == s.batches[a].tasks[i];
    }
    if Started(s, a) {
      assert WaitSet(s', {}, map[], a) == WaitSet(s, {}, map[], a);
    }
  }

  lemma CancelRest(s: State, b: nat)
    requires b < |s.batches| && -1 <= s.batches[b].currentTaskIndex
    requires TreeOk(s, map[], None) && HoldsOk(s, {}, map[]) && TraceOk(s, map[])
    requires forall a :: 0 <= a < |s.batches| ==> Reached(Cancelled(s, b), a) == Reached(s, a)
    ensures TreeOk(Cancelled(s, b), map[], None) && HoldsOk(Cancelled(s, b), {}, map[])
    ensures TraceOk(Cancelled(s, b), map[])
  {
    var s' := Cancelled(s, b);
    forall a, i | 0 <= a < |s'.batches| && 0 <= i < |s'.batches[a].tasks|
      ensures s'.batches[a].tasks[i] == s.batches[a].tasks[i] && TaskShaped(s', a, s'.batches[a].tasks[i])
    {
      assert TaskShaped(s, a, s.batches[a].tasks[i]);
    }
    forall g, k | 0 <= g < |s.holds| && 0 <= k < |s.holds[g].handlers|
      ensures HandlerFits(s', {}, map[], g, s.holds[g].handlers[k])
    {
      assert HandlerFits(s, {}, map[], g, s.holds[g].handlers[k]);
    }
  }

  lemma CancelKeeps(s: State, b: nat)
    requires Quiet(s) && b < |s.batches|
    ensures -1 <= s.batches[b].currentTaskIndex && Quiet(Cancelled(s, b))
  {
    hide TreeOk, HoldsOk, TraceOk;
    assert BatchOk(s, {}, map[], None, b);
    var s' := Cancelled(s, b);
    forall a | 0 <= a < |s.batches|
      ensures BatchOk(s', {}, map[], None, a) && Reached(s', a) == Reached(s, a)
    {
      CancelBatch(s, b, a);
    }
    CancelRest(s, b);
  }

  lemma DoneAlike(s: State, s': State, released: set<nat>, b: nat)
    requires Shaped(s) && Shaped(s') && b < |s.batches| == |s'.batches|
    requires forall a :: 0 <= a <= b ==> s'.batches[a].tasks == s.batches[a].tasks
    ensures Done(s', released, b) <==> Done(s, released, b)
    decreases b
  {
    forall i: nat | i < |s.batches[b].tasks|
      ensures TaskDone(s', released, b, i) <==> TaskDone(s, released, b, i)
    {
      TaskDoneAlike(s, s', released, b, i);
    }
  }

  lemma TaskDoneAlike(s: State, s': State, released: set<nat>, b: nat, i: nat)
    requires Shaped(s) && Shaped(s') && b < |s.batches| == |s'.batches|
    requires forall a :: 0 <= a < b ==> s'.batches[a].tasks == s.batches[a].tasks
    requires i < |s.batches[b].tasks| && i < |s'.batches[b].tasks| && s.batches[b].tasks[i] == s'.batches[b].tasks[i]
    ensures TaskDone(s', released, b, i) <==> TaskDone(s, released, b, i)
    decreases b, 0
  {
    var t := s.batches[b].tasks[i];
    assert TaskShaped(s, b, t);
    if t.Nested? {
      DoneAlike(s, s', released, t.batch);
    }
  }

  /**
    After cancel(), whatever holds are released later: no task of the batch past its current one starts, and the batch
    is done as soon as the tasks it has already started are.
   */
  lemma {:induction false} CancelStops(s: State, b: nat, released: set<nat>)
    requires Quiet(s) && b < |s.batches| && Started(s, b)
    ensures -1 <= s.batches[b].currentTaskIndex && Quiet(Cancelled(s, b)) && Started(Cancelled(s, b), b)
    ensures forall j: nat :: Position(b, j) in AllFrom(Cancelled(s, b), b, 0) ==> j < Reached(s, b)
    ensures Done(Cancelled(s, b), released, b) <==> ReachedDone(s, released, b)
  {
    CancelKeeps(s, b);
    assert BatchOk(s, {}, map[], None, b);
    var s' := Cancelled(s, b);
    forall j: nat | j < Reached(s, b)
      ensures TaskDone(s', released, b, j) <==> TaskDone(s, released, b, j)
    {
      TaskDoneAlike(s, s', released, b, j);
    }
    assert |s'.batches[b].tasks| == Reached(s, b);
    if Done(s', released, b) {
      forall j: nat | j < Reached(s, b)
        ensures TaskDone(s, released, b, j)
      {
        assert TaskDone(s', released, b, j);
      }
    }
    if ReachedDone(s, released, b) {
      forall j: nat | j < |s'.batches[b].tasks|
        ensures TaskDone(s', released, b, j)
      {
        assert TaskDone(s, released, b, j);
      }
      DoneBy(s', released, b);
    }
    forall j: nat | Position(b, j) in AllFrom(s', b, 0)
      ensures j < Reached(s, b)
    {
      OwnPositions(s', b, b, 0, j);
    }
  }

  // At rest a batch with at most n tasks has never run one from n on.
  lemma NeverPastTasks(t: State, b: nat, n: nat)
    requires Quiet(t) && b < |t.batches| && |t.batches[b].tasks| <= n
    ensures forall j: nat :: j >= n ==> Ran(Position(b, j)) !in t.trace
  {
    forall j: nat | j >= n
      ensures Ran(Position(b, j)) !in t.trace
    {
      assert multiset(t.trace)[Ran(Position(b, j))] == 0;
    }
  }

  // Every task the batch has started is done.
  ghost predicate ReachedDone(s: State, released: set<nat>, b: nat)
    requires Shaped(s) && b < |s.batches|
  {
    forall j: nat :: j < Reached(s, b) ==> TaskDone(s, released, b, j)
  }

  lemma DoneBy(s: State, released: set<nat>, b: nat)
    requires Shaped(s) && b < |s.batches|
    requires forall j: nat :: j < |s.batches[b].tasks| ==> TaskDone(s, released, b, j)
    ensures Done(s, released, b)
  {
  }

  lemma OwnPositions(s: State, b: nat, c: nat, i: nat, j: nat)
    requires Shaped(s) && c <= b < |s.batches| && i <= |s.batches[c].tasks|
    requires Position(b, j) in AllFrom(s, c, i)
    ensures c == b && i <= j < |s.batches[b].tasks|
    decreases c, |s.batches[c].tasks| - i
  {
    var t := s.batches[c].tasks[i];
    assert TaskShaped(s, c, t);
    if Position(b, j) == Position(c, i) {
    } else if t.Nested? && Position(b, j) in AllFrom(s, t.batch, 0) {
      OwnPositions(s, b, t.batch, 0, j);
    } else {
      OwnPositions(s, b, c, i + 1, j);
    }
  }

  lemma NewHoldBatch(s: State, a: nat)
    requires Quiet(s) && a < |s.batches|
    ensures BatchOk(WithNewHold(s), {}, map[], None, a)
  {
    assert BatchOk(s, {}, map[], None, a);
    var s' := WithNewHold(s);
    forall i: nat | Started(s, a) && i < |s.batches[a].tasks| && i < Reached(s, a)
      ensures (Waits(s', {}, a, i) <==> Waits(s, {}, a, i)) && Connected(s', {}, a, i)
    {
      assert Connected(s, {}, a, i);
      HoldAtValid(s, {}, map[], None, None, a, i);
    }
    BatchCarries(s, s', {}, {}, map[], map[], None, None, a);
  }

  lemma NewHoldRest(s: State)
    requires TreeOk(s, map[], None) && HoldsOk(s, {}, map[]) && TraceOk(s, map[])
    ensures TreeOk(WithNewHold(s), map[], None) && HoldsOk(WithNewHold(s), {}, map[]) && TraceOk(WithNewHold(s), map[])
  {
    var s' := WithNewHold(s);
    forall a, i | 0 <= a < |s.batches| && 0 <= i < |s.batches[a].tasks|
      ensures TaskShaped(s', a, s.batches[a].tasks[i])
    {
      assert TaskShaped(s, a, s.batches[a].tasks[i]);
    }
    forall g, k | 0 <= g < |s.holds| && 0 <= k < |s.holds[g].handlers|
      ensures HandlerFits(s', {}, map[], g, s.holds[g].handlers[k])
    {
      assert HandlerFits(s, {}, map[], g, s.holds[g].handlers[k]);
    }
  }

  lemma NewHoldKeeps(s: State)
    requires Quiet(s)
    ensures Quiet(WithNewHold(s))
  {
    hide TreeOk, HoldsOk, TraceOk, BatchOk;
    var s' := WithNewHold(s);
    forall a | 0 <= a < |s.batches|
      ensures BatchOk(s', {}, map[], None, a)
    {
      NewHoldBatch(s, a);
    }
    NewHoldRest(s);
  }

  lemma NewBatchBatch(s: State, concurrent: bool, tasks: seq<Task>, a: nat)
    requires Quiet(s) && a <= |s.batches|
    ensures BatchOk(WithNewBatch(s, concurrent, tasks), {}, map[], None, a)
  {
    var s' := WithNewBatch(s, concurrent, tasks);
    if a < |s.batches| {
      assert BatchOk(s, {}, map[], None, a);
      forall i: nat | Started(s, a) && i < |s.batches[a].tasks| && i < Reached(s, a)
        ensures (Waits(s', {}, a, i) <==> Waits(s, {}, a, i)) && Connected(s', {}, a, i)
      {
        assert Connected(s, {}, a, i);
        assert TaskShaped(s, a, s.batches[a].tasks[i]);
      }
      BatchCarries(s, s', {}, {}, map[], map[], None, None, a);
    }
  }

  lemma NewBatchTree(s: State, concurrent: bool, tasks: seq<Task>)
    requires TreeOk(s, map[], None) && UsableTasks(s.holds, s.batches, tasks)
    ensures TreeOk(WithNewBatch(s, concurrent, tasks), map[], None)
  {
    var s' := WithNewBatch(s, concurrent, tasks);
    forall a, i | 0 <= a < |s'.batches| && 0 <= i < |s'.batches[a].tasks|
      ensures TaskShaped(s', a, s'.batches[a].tasks[i])
      ensures a < |s.batches| ==> TaskShaped(s, a, s'.batches[a].tasks[i])
    {
      assert a < |s.batches| ==> TaskShaped(s, a, s.batches[a].tasks[i]);
    }
  }

  lemma NewBatchHolds(s: State, concurrent: bool, tasks: seq<Task>)
    requires Shaped(s) && HoldsOk(s, {}, map[]) && TraceOk(s, map[])
    ensures HoldsOk(WithNewBatch(s, concurrent, tasks), {}, map[])
    ensures TraceOk(WithNewBatch(s, concurrent, tasks), map[])
  {
    var s' := WithNewBatch(s, concurrent, tasks);
    forall g, k | 0 <= g < |s.holds| && 0 <= k < |s.holds[g].handlers|
      ensures HandlerFits(s', {}, map[], g, s.holds[g].handlers[k])
    {
      var x := s.holds[g].handlers[k];
      assert HandlerFits(s, {}, map[], g, x);
      assert TaskShaped(s, x.origin.batch, s.batches[x.origin.batch].tasks[x.origin.index]);
    }
  }

  lemma NewBatchKeeps(s: State, concurrent: bool, tasks: seq<Task>)
    requires Quiet(s) && UsableTasks(s.holds, s.batches, tasks)
    ensures Quiet(WithNewBatch(s, concurrent, tasks))
  {
    var s' := WithNewBatch(s, concurrent, tasks);
    assert Shaped(s) && TreeOk(s, map[], None) && HoldsOk(s, {}, map[]) && TraceOk(s, map[]);
    hide TreeOk, HoldsOk, TraceOk, BatchOk, UsableTasks, Shaped;
    forall a | 0 <= a < |s'.batches|
      ensures BatchOk(s', {}, map[], None, a)
    {
      NewBatchBatch(s, concurrent, tasks, a);
    }
    NewBatchTree(s, concurrent, tasks);
    NewBatchHolds(s, concurrent, tasks);
  }

  // A batch nested nowhere may be run from outside.
  lemma RootMayStart(s: State, c: nat)
    requires Quiet(s) && c < |s.batches| && !Started(s, c) && IsRoot(s.batches, c)
    ensures Inv(s, {}, map[], None, Some(c)) && Unheard(s, map[], c)
  {
  }

  class Runtime {
    var holds: seq<HoldObject>
    var batches: seq<BatchObject>
    var trace: seq<TraceEvent>

    ghost function Now(): State
      reads this
    {
      State(holds, batches, trace)
    }

    constructor ()
      ensures Quiet(Now()) && holds == [] && batches == [] && trace == []
    {
      holds, batches, trace := [], [], [];
      new;
      assert multiset(trace) == multiset{};
    }

    // Hold.release
    method Release(h: nat, ghost owed: set<Position>, ghost busy: Busy, ghost up: nat)
      requires h < |holds| && Inv(Now(), owed, busy, holds[h].owner, None)
      requires HandlersBounded(Now(), busy, h, up)
      modifies this
      ensures Inv(Now(), owed, busy, None, None)
      ensures Framed(Drop(old(Now()), h), Now(), busy.Keys)
      decreases up, (if holds[h].owner.Some? then holds[h].owner.value else 0), 0, 0
    {
      hide Inv;
      ghost var before := Now();
      DropKeeps(before, h, owed, busy);
      holds := holds[h := holds[h].(acquisitions := holds[h].acquisitions - 1)];
      if holds[h].acquisitions == 0 {
        trace := trace + [Emitted(h)];
        var handlers := holds[h].handlers;   // the emission works on a copy
        assert Now() == Drop(before, h);
        assert handlers[0..] == handlers;
        var k := 0;
        while k < |handlers|
          invariant 0 <= k <= |handlers|
          invariant Inv(Now(), owed + Origins(handlers[k..]), busy, None, None)
          invariant Framed(Drop(before, h), Now(), busy.Keys)
        {
          ghost var rest := owed + Origins(handlers[k + 1..]);
          ghost var middle := Now();
          Emission(before, middle, h, k, owed, busy);
          Invoke(h, handlers[k], rest, up);
          FramedChain(Drop(before, h), middle, Now(), busy.Keys, busy.Keys);
          k := k + 1;
        }
        assert owed + Origins(handlers[k..]) == owed;
      } else {
        assert owed + NewlyOwed(before, h) == owed;
        assert Now() == Drop(before, h);
      }
    }

    // The callback connected by acquireUntilAfter (ReleaseHold) or by ConsecutiveBatch.process (AdvanceBatch).
    method Invoke(h: nat, x: Handler, ghost owed: set<Position>, ghost up: nat)
      requires h < |holds| && x in holds[h].handlers && x.origin !in owed
      requires Inv(Now(), owed + {x.origin}, map[], None, None)
      requires |batches| - x.origin.batch < up
      modifies this
      ensures Inv(Now(), owed, map[], None, None)
      ensures Framed(old(Now()), Now(), {})
      decreases |batches| - x.origin.batch, x.origin.batch,
                |if x.origin.batch < |batches| then batches[x.origin.batch].tasks else []| + 3, 0
    {
      hide Inv;
      ghost var before := Now();
      ghost var b := x.origin.batch;
      HandlerShape(before, h, x, owed + {x.origin});
      ToldKeeps(before, h, x, owed + {x.origin}, map[]);
      assert owed + {x.origin} - {x.origin} == owed;
      holds := holds[h := holds[h].(handlers := Without(holds[h].handlers, x))];
      ghost var middle := Now();
      assert middle == Disconnect(before, h, x);
      match x {
        case ReleaseHold(own, _) =>
          BoundedHandlers(middle, owed, map[], Some(b), b, |batches| - b);
          Release(own, owed, map[], |batches| - b);
          FramedDrop(before, middle, Now(), own, {});
        case AdvanceBatch(waiting, o) =>
          NextTask(waiting, owed, map[b := Progress(o.index + 1, o.index + 1)], |batches| - b);
          assert map[b := Progress(o.index + 1, o.index + 1)] - {b} == map[];
      }
    }

    // Batch.nextTask, with _finish in place
    method NextTask(b: nat, ghost owed: set<Position>, ghost busy: Busy, ghost up: nat)
      requires b < |batches| && b in busy && Started(Now(), b)
      requires Inv(Now(), owed, busy, None, None) && Bounded(Now(), busy, b, up)
      requires busy[b].ran == busy[b].linked == Reached(Now(), b)
      requires 0 <= batches[b].currentTaskIndex <= |batches[b].tasks|
      modifies this
      ensures Inv(Now(), owed, busy - {b}, None, None)
      ensures Framed(old(Now()), Now(), busy.Keys - {b})
      decreases up, b, |batches[b].tasks| + 1 - batches[b].currentTaskIndex, 1
    {
      hide Inv;
      ghost var before := Now();
      ghost var index := batches[b].currentTaskIndex + 1;
      batches := batches[b := batches[b].(currentTaskIndex := batches[b].currentTaskIndex + 1)];
      ghost var middle := Now();
      assert middle == WithIndex(before, b, index);
      if batches[b].currentTaskIndex >= |batches[b].tasks| {
        FinishKeeps(before, b, owed, busy, index);
        BoundedFramed(before, middle, busy, busy - {b}, b, up);
        BoundedHandlers(middle, owed, busy - {b}, Some(b), b, up);
        Release(batches[b].hold.value, owed, busy - {b}, up);
        FramedDrop(before, middle, Now(), middle.batches[b].hold.value, busy.Keys - {b});
      } else {
        AdvanceKeeps(before, b, owed, busy, index);
        BoundedFramed(before, middle, busy, busy, b, up);
        Process(b, owed, busy, up);
      }
    }

    // Batch.process: which of the two a batch has depends on its class
    method Process(b: nat, ghost owed: set<Position>, ghost busy: Busy, ghost up: nat)
      requires b < |batches| && b in busy && Started(Now(), b)
      requires Inv(Now(), owed, busy, None, None) && Bounded(Now(), busy, b, up)
      requires 0 <= batches[b].currentTaskIndex <= |batches[b].tasks|
      requires batches[b].currentTaskIndex == |batches[b].tasks| ==> |batches[b].tasks| == 0
      requires busy[b] == Progress(batches[b].currentTaskIndex, batches[b].currentTaskIndex)
      modifies this
      ensures Inv(Now(), owed, busy - {b}, None, None)
      ensures Framed(old(Now()), Now(), busy.Keys - {b})
      decreases up, b, |batches[b].tasks| + 1 - batches[b].currentTaskIndex, 3
    {
      if batches[b].concurrent {
        ProcessConcurrent(b, owed, busy, up);
      } else {
        ProcessConsecutive(b, owed, busy, up);
      }
    }

    // ConcurrentBatch.process
    method ProcessConcurrent(b: nat, ghost owed: set<Position>, ghost busy: Busy, ghost up: nat)
      requires b < |batches| && b in busy && Started(Now(), b)
      requires Inv(Now(), owed, busy, None, None) && Bounded(Now(), busy, b, up)
      requires 0 <= batches[b].currentTaskIndex <= |batches[b].tasks|
      requires batches[b].currentTaskIndex == |batches[b].tasks| ==> |batches[b].tasks| == 0
      requires busy[b] == Progress(batches[b].currentTaskIndex, batches[b].currentTaskIndex)
      requires batches[b].concurrent
      modifies this
      ensures Inv(Now(), owed, busy - {b}, None, None)
      ensures Framed(old(Now()), Now(), busy.Keys - {b})
      decreases up, b, |batches[b].tasks| + 1 - batches[b].currentTaskIndex, 2
    {
      hide Inv, Unheard, HoldAt;
      ghost var before := Now();
      ghost var i := batches[b].currentTaskIndex;
      ghost var busyNext := busy;
      var hold := RunTask(b, owed, busy, up);
      ghost var ran := Now();
      if i < |before.batches[b].tasks| {
        busyNext := busy[b := Progress(i + 1, i + 1)];
        WatchKeeps(ran, b, i, owed, busy[b := Progress(i + 1, i)], busyNext);
      }
      if hold.Some? {
        AcquireUntilAfter(batches[b].hold.value, hold.value, Position(b, batches[b].currentTaskIndex));
      }
      ghost var linked := Now();
      assert linked == if i < |before.batches[b].tasks| then Watched(ran, b, i) else ran;
      BoundedFramed(before, linked, busy, busyNext, b, up);
      // regardless of the state of the task just run, run the next one
      NextTask(b, owed, busyNext, up);
      FramedChain(before, ran, linked, busy.Keys, busy.Keys);
      FramedChain(before, linked, Now(), busy.Keys, busy.Keys - {b});
      assert busy.Keys * busy.Keys * (busy.Keys - {b}) == busy.Keys - {b};
      assert busyNext - {b} == busy - {b};
    }

    // ConsecutiveBatch.process
    method ProcessConsecutive(b: nat, ghost owed: set<Position>, ghost busy: Busy, ghost up: nat)
      requires b < |batches| && b in busy && Started(Now(), b)
      requires Inv(Now(), owed, busy, None, None) && Bounded(Now(), busy, b, up)
      requires 0 <= batches[b].currentTaskIndex <= |batches[b].tasks|
      requires batches[b].currentTaskIndex == |batches[b].tasks| ==> |batches[b].tasks| == 0
      requires busy[b] == Progress(batches[b].currentTaskIndex, batches[b].currentTaskIndex)
      requires !batches[b].concurrent
      modifies this
      ensures Inv(Now(), owed, busy - {b}, None, None)
      ensures Framed(old(Now()), Now(), busy.Keys - {b})
      decreases up, b, |batches[b].tasks| + 1 - batches[b].currentTaskIndex, 2
    {
      hide Inv, Unheard, HoldAt;
      ghost var before := Now();
      ghost var i := batches[b].currentTaskIndex;
      ghost var busyRun := busy[b := Progress(i + 1, i)];
      var hold := RunTask(b, owed, busy, up);
      ghost var ran := Now();
      if hold.Some? && holds[hold.value].acquisitions > 0 {
        // this task is inhibiting the batch: wait on it
        LinkConsecutiveKeeps(ran, b, i, hold.value, owed, busyRun);
        holds := holds[hold.value := holds[hold.value].(
          handlers := holds[hold.value].handlers + [AdvanceBatch(b, Position(b, batches[b].currentTaskIndex))])];
        assert Now() == Link(ran, b, i, hold.value);
        assert busyRun - {b} == busy - {b};
        FramedChain(before, ran, Now(), busy.Keys, busy.Keys);
      } else {
        // this task finished, or there is none: go on
        ghost var busyNext := busy;
        if i < |before.batches[b].tasks| {
          LinkNothingKeeps(ran, b, owed, busyRun);
          busyNext := busy[b := Progress(i + 1, i + 1)];
          assert busyRun[b := Progress(i + 1, i + 1)] == busyNext;
        }
        BoundedFramed(before, ran, busy, busyNext, b, up);
        NextTask(b, owed, busyNext, up);
        FramedChain(before, ran, Now(), busy.Keys, busy.Keys - {b});
        assert busyNext - {b} == busy - {b};
      }
      assert busy.Keys * (busy.Keys - {b}) == busy.Keys - {b};
    }

    // Batch.runTask
    method RunTask(b: nat, ghost owed: set<Position>, ghost busy: Busy, ghost up: nat) returns (hold: Option<nat>)
      requires b < |batches| && b in busy && Started(Now(), b)
      requires Inv(Now(), owed, busy, None, None) && Bounded(Now(), busy, b, up)
      requires 0 <= batches[b].currentTaskIndex <= |batches[b].tasks|
      requires busy[b] == Progress(batches[b].currentTaskIndex, batches[b].currentTaskIndex)
      modifies this
      ensures
        var i := old(batches[b]).currentTaskIndex;
        if i == |old(batches[b]).tasks| then Now() == old(Now()) && hold == None
        else
          && Inv(Now(), owed, busy[b := Progress(i + 1, i)], None, None)
          && Framed(old(Now()), Now(), busy.Keys)
          && hold == HoldAt(Now(), b, i) && (hold.Some? ==> hold.value < |holds|)
      decreases up, b, |batches[b].tasks| + 1 - batches[b].currentTaskIndex, 0
    {
      hide Inv;
      ghost var before := Now();
      var index := batches[b].currentTaskIndex;
      if index >= |batches[b].tasks| {
        return None;
      }
      ghost var busyRun := busy[b := Progress(index + 1, index)];
      LogRunKeeps(before, b, owed, busy);
      trace := trace + [Ran(Position(b, index))];
      assert Now() == LogRun(before, Position(b, index));
      match batches[b].tasks[index] {
        case Action(returned) =>
          hold := returned;
        case Nested(c) =>
          NestedUnheard(before, owed, busy, b, index, c);
          var own := Run(c, owed, busyRun);
          hold := Some(own);
      }
      HoldAtValid(Now(), owed, busyRun, None, None, b, index);
    }

    // Batch.run and Batch._start
    method Run(c: nat, ghost owed: set<Position>, ghost busy: Busy) returns (hold: nat)
      requires c < |batches| && !Started(Now(), c) && c !in busy
      requires Inv(Now(), owed, busy, None, Some(c)) && Unheard(Now(), busy, c)
      modifies this
      ensures Inv(Now(), owed, busy, None, None)
      ensures Framed(old(Now()), Now(), busy.Keys)
      ensures batches[c].hold == Some(hold)
      decreases 0, c, |batches[c].tasks| + 3, 0
    {
      hide Inv;
      ghost var before := Now();
      BeginKeeps(before, c, owed, busy);
      hold := |holds|;
      holds := holds + [HoldObject(1, [], Some(c))];
      batches := batches[c := batches[c].(hold := Some(hold), currentTaskIndex := 0)];
      assert Now() == Begin(before, c);
      ghost var begun := Now();
      assert busy[c := Progress(0, 0)] - {c} == busy;
      Process(c, owed, busy[c := Progress(0, 0)], 0);
      assert busy.Keys + {c} - {c} == busy.Keys;
      assert begun.batches[c].hold == Some(hold);
    }

    // Hold.acquire; `ok` is false where the source throws.
    method Acquire(h: nat) returns (ok: bool)
      requires h < |holds|
      modifies this`holds
      ensures ok <==> old(holds[h]).acquisitions > 0
      ensures holds ==
        if ok then old(holds)[h := old(holds)[h].(acquisitions := old(holds)[h].acquisitions + 1)] else old(holds)
    {
      if holds[h].acquisitions <= 0 {
        return false;
      }
      holds := holds[h := holds[h].(acquisitions := holds[h].acquisitions + 1)];
      return true;
    }

    // Hold.acquireUntilAfter
    method AcquireUntilAfter(own: nat, h: nat, origin: Position)
      requires own < |holds| && h < |holds| && holds[own].acquisitions > 0
      modifies this`holds
      ensures holds ==
        if old(holds[h]).acquisitions <= 0 then old(holds)
        else
          var gained := old(holds)[own := old(holds)[own].(acquisitions := old(holds)[own].acquisitions + 1)];
          gained[h := gained[h].(handlers := gained[h].handlers + [ReleaseHold(own, origin)])]
    {
      if holds[h].acquisitions <= 0 {
        return;
      }
      var ok := Acquire(own);
      holds := holds[h := holds[h].(handlers := holds[h].handlers + [ReleaseHold(own, origin)])];
    }

    // ---- the calls made from outside, when none of the above is on the stack ----

    // new Hold()
    method NewHold() returns (h: nat)
      requires Quiet(Now())
      modifies this`holds
      ensures Quiet(Now()) && h == |old(holds)| && holds == old(holds) + [HoldObject(1, [], None)]
    {
      NewHoldKeeps(Now());
      h := |holds|;
      holds := holds + [HoldObject(1, [], None)];
    }

    // new ConcurrentBatch(scope, tasks), new ConsecutiveBatch(scope, tasks)
    method NewBatch(concurrent: bool, tasks: seq<Task>) returns (b: nat)
      requires Quiet(Now()) && UsableTasks(holds, batches, tasks)
      modifies this`batches
      ensures Quiet(Now()) && b == |old(batches)|
      ensures batches == old(batches) + [BatchObject(concurrent, tasks, -1, None)]
    {
      NewBatchKeeps(Now(), concurrent, tasks);
      b := |batches|;
      batches := batches + [BatchObject(concurrent, tasks, -1, None)];
    }

    method RunRoot(b: nat)
      requires Quiet(Now()) && b < |batches| && !Started(Now(), b) && IsRoot(batches, b)
      modifies this
      ensures Quiet(Now()) && Framed(old(Now()), Now(), {}) && Started(Now(), b)
      ensures Released(Now()) == Released(old(Now()))
    {
      ghost var before := Now();
      RootMayStart(before, b);
      hide Inv;
      var hold := Run(b, {}, map[]);
      assert Framed(before, Now(), {});
    }

    // A caller's acquire() on a hold of its own; `ok` is false where the source throws.
    method AcquireOwn(h: nat) returns (ok: bool)
      requires Quiet(Now()) && h < |holds| && holds[h].owner == None
      modifies this`holds
      ensures Quiet(Now()) && Released(Now()) == Released(old(Now()))
      ensures ok <==> old(holds[h]).acquisitions > 0
      ensures Now() == if ok then Gain(old(Now()), h) else old(Now())
    {
      if holds[h].acquisitions > 0 {
        GainKeeps(Now(), h, {}, map[]);
      }
      ok := Acquire(h);
    }

    // A caller's release() on a hold of its own: the one thing that changes outside the batches is the hold.
    method ReleaseOwn(h: nat)
      requires Quiet(Now()) && h < |holds| && holds[h].owner == None
      modifies this
      ensures Quiet(Now()) && Framed(Drop(old(Now()), h), Now(), {})
      ensures Released(Now()) ==
              Released(old(Now())) + (if old(holds[h]).acquisitions == 1 then {h} else {})
    {
      ghost var before := Now();
      OwnHandlersBounded(before, h);
      hide Inv;
      Release(h, {}, map[], |batches| + 1);
      ReleasedAfterDrop(before, Now(), h);
    }

    // Batch.cancel
    method Cancel(b: nat)
      requires Quiet(Now()) && b < |batches|
      modifies this`batches
      ensures Quiet(Now()) && -1 <= old(batches[b]).currentTaskIndex && Now() == Cancelled(old(Now()), b)
    {
      CancelKeeps(Now(), b);
      batches := batches[b := batches[b].(tasks := Spliced(batches[b]))];
    }
  }

  lemma OwnHandlersBounded(s: State, h: nat)
    requires Quiet(s) && h < |s.holds|
    ensures HandlersBounded(s, map[], h, |s.batches| + 1)
  {
  }

  lemma ReleasedAfterDrop(s: State, s': State, h: nat)
    requires h < |s.holds| && s.holds[h].owner == None && Framed(Drop(s, h), s', {})
    ensures Released(s') == Released(s) + (if s.holds[h].acquisitions == 1 then {h} else {})
  {
    forall g: nat | g < |s'.holds|
      ensures g in Released(s') <==> g in Released(s) + (if s.holds[h].acquisitions == 1 then {h} else {})
    {
      assert g < |s.holds| ==> s'.holds[g].owner == Drop(s, h).holds[g].owner;
    }
  }

  // Everything a client can do, in any order; a call the source does not allow for is skipped.
  datatype Call =
    | MakeHold
    | MakeBatch(concurrent: bool, tasks: seq<Task>)
    | RunBatch(batch: nat)
    | AcquireHold(hold: nat)
    | ReleaseHoldOf(hold: nat)
    | CancelBatchOf(batch: nat)

  // Batches stay, and none gains tasks.
  ghost predicate NoneGrown(before: seq<BatchObject>, after: seq<BatchObject>) {
    |before| <= |after| && forall b {:trigger before[b]} {:trigger after[b]} :: 0 <= b < |before| ==>
      |after[b].tasks| <= |before[b].tasks|
  }

  // One call of a client; one that the source does not allow for is skipped.
  method Serve(r: Runtime, call: Call)
    requires Quiet(r.Now())
    modifies r
    ensures Quiet(r.Now()) && NoneGrown(old(r.batches), r.batches)
  {
    hide Quiet;
    match call
    case MakeHold =>
      var _ := r.NewHold();
    case MakeBatch(concurrent, tasks) =>
      if UsableTasks(r.holds, r.batches, tasks) {
        var _ := r.NewBatch(concurrent, tasks);
      }
    case RunBatch(b) =>
      if b < |r.batches| && r.batches[b].hold == None && IsRoot(r.batches, b) {
        r.RunRoot(b);
      }
    case AcquireHold(h) =>
      if h < |r.holds| && r.holds[h].owner == None {
        var _ := r.AcquireOwn(h);
      }
    case ReleaseHoldOf(h) =>
      if h < |r.holds| && r.holds[h].owner == None {
        r.ReleaseOwn(h);
      }
    case CancelBatchOf(b) =>
      if b < |r.batches| {
        r.Cancel(b);
      }
  }

  method DriveOn(r: Runtime, calls: seq<Call>)
    requires Quiet(r.Now())
    modifies r
    ensures Quiet(r.Now()) && NoneGrown(old(r.batches), r.batches)
  {
    hide Quiet;
    for k := 0 to |calls|
      invariant Quiet(r.Now()) && NoneGrown(old(r.batches), r.batches)
    {
      Serve(r, calls[k]);
    }
  }

  /**
    Whatever a client does after cancelling a batch, no task of it past the one it had come to ever runs: the trace of
    the whole run, before and after, has none.
   */
  method CancelThenDrive(r: Runtime, b: nat, calls: seq<Call>)
    requires Quiet(r.Now()) && b < |r.batches| && Started(r.Now(), b)
    modifies r
    ensures Quiet(r.Now())
    ensures forall j: nat :: j >= old(Reached(r.Now(), b)) ==> Ran(Position(b, j)) !in r.trace
  {
    ghost var n := Reached(r.Now(), b);
    CancelStops(r.Now(), b, {});
    hide Quiet;
    r.Cancel(b);
    CutToReached(old(r.Now()), b);
    DriveOn(r, calls);
    NeverPastTasks(r.Now(), b, n);
  }

  lemma CutToReached(s: State, b: nat)
    requires Quiet(s) && b < |s.batches| && Started(s, b)
    ensures -1 <= s.batches[b].currentTaskIndex && |Cancelled(s, b).batches[b].tasks| <= Reached(s, b)
  {
    assert BatchOk(s, {}, map[], None, b);
  }

  /**
    Every run of a client from nothing ends in a quiet state, so RefinesAlgebra holds after every call of every run.
   */
  method Drive(calls: seq<Call>) returns (r: Runtime)
    ensures fresh(r) && Quiet(r.Now())
  {
    r := new Runtime();
    DriveOn(r, calls);
  }
}
