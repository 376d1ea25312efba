/**
  What the performance log of src/shell-perf-log.c stores and what replaying it means, on values: records and their
  bytes, the records one accepted event turns into, and the times a replay reports.
 */
module PerfLogModel {
  import opened Bytes
  import opened Sequences

  const BLOCK_SIZE: nat := 8192
  const EVENT_SET_TIME: nat := 0
  const EVENT_STATISTICS_COLLECTED: nat := 1
  const MAX_DELTA: int := 0xffff_ffff

  // `id` is the event's index in the table of events.
  datatype Event = Event(name: string, signature: string)

  datatype Arg =
    | NoArg
    | Int32(i: int)
    | Int64(x: int)
    | Text(s: seq<byte>)   // without the terminating NUL

  predicate SupportedSignature(signature: string) {
    signature == "" || signature == "s" || signature == "i" || signature == "x"
  }

  ghost predicate ArgFits(arg: Arg, signature: string) {
    match arg
    case NoArg => signature == ""
    case Int32(i) => signature == "i" && InSigned(i, 4)
    case Int64(x) => signature == "x" && InSigned(x, 8)
    case Text(s) => signature == "s" && 0 !in s
  }

  // The bytes passed to record_event.
  function Payload(arg: Arg): seq<byte>
    requires arg.Int32? ==> InSigned(arg.i, 4)
    requires arg.Int64? ==> InSigned(arg.x, 8)
  {
    match arg
    case NoArg => []
    case Int32(i) => EncodeSigned(i, 4)
    case Int64(x) => EncodeSigned(x, 8)
    case Text(s) => s + [0]
  }

  // One entry of a block.
  datatype Record = Record(delta: nat, id: nat, arg: Arg)

  // What fits the fields of a record.
  ghost predicate Printable(r: Record) {
    && r.delta <= MAX_DELTA && r.id < 0x1_0000
    && match r.arg
       case NoArg => true
       case Int32(i) => InSigned(i, 4)
       case Int64(x) => InSigned(x, 8)
       case Text(s) => 0 !in s
  }

  ghost predicate AllPrintable(rs: seq<Record>) {
    forall k :: 0 <= k < |rs| ==> Printable(rs[k])
  }

  ghost predicate RecordOk(events: seq<Event>, r: Record) {
    Printable(r) && r.id < |events| && ArgFits(r.arg, events[r.id].signature)
  }

  ghost predicate RecordsOk(events: seq<Event>, rs: seq<Record>) {
    forall k :: 0 <= k < |rs| ==> RecordOk(events, rs[k])
  }

  ghost function Print(r: Record): (bs: seq<byte>)
    requires Printable(r)
    ensures |bs| == 6 + |Payload(r.arg)|
  {
    Encode(r.delta, 4) + Encode(r.id, 2) + Payload(r.arg)
  }

  ghost function PrintEach(rs: seq<Record>): (bss: seq<seq<byte>>)
    requires AllPrintable(rs)
  {
    seq(|rs|, k requires 0 <= k < |rs| => assert Printable(rs[k]); Print(rs[k]))
  }

  ghost function PrintAll(rs: seq<Record>): seq<byte>
    requires AllPrintable(rs)
  {
    Flatten(PrintEach(rs))
  }

  // What the replay function is called with.
  datatype Replayed = Replayed(time: int, name: string, signature: string, arg: Arg)

  // One turn of the replay loop: the calls made so far and the replay's clock.
  ghost function ReplayOne(events: seq<Event>, r: Record, out: seq<Replayed>, clock: int): (seq<Replayed>, int)
    requires RecordOk(events, r) && SetTimeDefined(events)
  {
    if r.id == EVENT_SET_TIME then (out, r.arg.x)
    else (out + [Replayed(clock + r.delta, events[r.id].name, events[r.id].signature, r.arg)], clock + r.delta)
  }

  ghost function Replay(events: seq<Event>, rs: seq<Record>, start: int): (seq<Replayed>, int)
    requires RecordsOk(events, rs) && SetTimeDefined(events)
  {
    if rs == [] then ([], start)
    else
      assert RecordOk(events, rs[|rs| - 1]);
      var before := Replay(events, rs[..|rs| - 1], start);
      ReplayOne(events, rs[|rs| - 1], before.0, before.1)
  }

  ghost predicate SetTimeDefined(events: seq<Event>) {
    |events| >= 2 && events[EVENT_SET_TIME] == Event("perf.setTime", "x")
    && events[EVENT_STATISTICS_COLLECTED] == Event("perf.statisticsCollected", "x")
  }

  // An event the log accepted, with the time it was recorded at.
  datatype Accepted = Accepted(time: int, id: nat, arg: Arg)

  ghost predicate AcceptedOk(events: seq<Event>, a: Accepted) {
    && InSigned(a.time, 8) && a.id < |events| <= 0x1_0000 && ArgFits(a.arg, events[a.id].signature)
  }

  ghost predicate AllAccepted(events: seq<Event>, acc: seq<Accepted>) {
    forall k :: 0 <= k < |acc| ==> AcceptedOk(events, acc[k])
  }

  ghost function LastTime(start: int, acc: seq<Accepted>): int {
    if acc == [] then start else acc[|acc| - 1].time
  }

  // The records written for an event at `time`, after one at `last`.
  ghost function Recorded(last: int, time: int, id: nat, arg: Arg): (rs: seq<Record>)
    ensures |rs| == 1 || |rs| == 2
  {
    if time > last + MAX_DELTA then [Record(0, EVENT_SET_TIME, Int64(time)), Record(0, id, arg)]
    else if time < last then [Record(0, id, arg)]
    else [Record(time - last, id, arg)]
  }

  ghost function AllRecorded(start: int, acc: seq<Accepted>): seq<Record> {
    if acc == [] then []
    else
      var a := acc[|acc| - 1];
      var before := acc[..|acc| - 1];
      AllRecorded(start, before) + Recorded(LastTime(start, before), a.time, a.id, a.arg)
  }

  // ---------- what a replay reports, in terms of what was recorded ----------

  // An event far enough ahead is preceded by a perf.setTime record.
  ghost predicate Resets(start: int, acc: seq<Accepted>)
    requires acc != []
  {
    acc[|acc| - 1].time > LastTime(start, acc[..|acc| - 1]) + MAX_DELTA
  }

  // How far ahead of the recorded time the replayed time of the last event is: the sum of the backward steps since the
  // last perf.setTime record.
  ghost function Drift(start: int, acc: seq<Accepted>): int {
    if acc == [] then 0
    else
      var a := acc[|acc| - 1];
      var before := acc[..|acc| - 1];
      if a.id == EVENT_SET_TIME && a.arg.Int64? then a.arg.x - a.time
      else if Resets(start, acc) then 0
      else Drift(start, before) + BackwardStep(LastTime(start, before), a.time)
  }

  function BackwardStep(last: int, time: int): nat {
    if time < last then last - time else 0
  }

  ghost function Expected(events: seq<Event>, start: int, acc: seq<Accepted>): seq<Replayed>
    requires AllAccepted(events, acc)
  {
    if acc == [] then []
    else
      var a := acc[|acc| - 1];
      Expected(events, start, acc[..|acc| - 1])
      + if a.id == EVENT_SET_TIME then []
        else [Replayed(a.time + Drift(start, acc), events[a.id].name, events[a.id].signature, a.arg)]
  }

  lemma {:induction false} RecordedOk(events: seq<Event>, start: int, acc: seq<Accepted>)
    requires AllAccepted(events, acc) && SetTimeDefined(events)
    ensures RecordsOk(events, AllRecorded(start, acc))
  {
    if acc != [] {
      var a := acc[|acc| - 1];
      var before := acc[..|acc| - 1];
      RecordedOk(events, start, before);
      assert AcceptedOk(events, a);
    }
  }

  lemma {:induction false} ReplayAppend(events: seq<Event>, rs: seq<Record>, r: Record, start: int)
    requires RecordsOk(events, rs + [r]) && SetTimeDefined(events)
    ensures RecordsOk(events, rs) && RecordOk(events, r)
    ensures Replay(events, rs + [r], start)
            == ReplayOne(events, r, Replay(events, rs, start).0, Replay(events, rs, start).1)
  {
    assert RecordOk(events, (rs + [r])[|rs|]);
    assert forall k :: 0 <= k < |rs| ==> (rs + [r])[k] == rs[k];
    assert (rs + [r])[..|rs + [r]| - 1] == rs;
  }

  lemma ReplayAppendTwo(events: seq<Event>, rs: seq<Record>, r: Record, r': Record, start: int)
    requires RecordsOk(events, rs) && RecordOk(events, r) && RecordOk(events, r') && SetTimeDefined(events)
    ensures RecordsOk(events, rs + [r, r'])
    ensures
      var once := ReplayOne(events, r, Replay(events, rs, start).0, Replay(events, rs, start).1);
      Replay(events, rs + [r, r'], start) == ReplayOne(events, r', once.0, once.1)
  {
    hide RecordOk, SetTimeDefined, ReplayOne;
    assert rs + [r, r'] == (rs + [r]) + [r'];
    RecordsAppend(events, rs, r);
    RecordsAppend(events, rs + [r], r');
    ReplayAppend(events, rs, r, start);
    ReplayAppend(events, rs + [r], r', start);
  }

  // Replaying the records of one more event, from a clock that is `drift` ahead of `last`.
  lemma ReplayStep(events: seq<Event>, rs: seq<Record>, start: int, last: int, drift: int, drift': int, a: Accepted)
    requires AcceptedOk(events, a) && SetTimeDefined(events) && RecordsOk(events, rs)
    requires Replay(events, rs, start).1 == last + drift
    requires drift' ==
      if a.id == EVENT_SET_TIME && a.arg.Int64? then a.arg.x - a.time
      else if a.time > last + MAX_DELTA then 0
      else drift + BackwardStep(last, a.time)
    ensures RecordsOk(events, rs + Recorded(last, a.time, a.id, a.arg))
    ensures Replay(events, rs + Recorded(last, a.time, a.id, a.arg), start).0 ==
            Replay(events, rs, start).0 +
              (if a.id == EVENT_SET_TIME then []
               else [Replayed(a.time + drift', events[a.id].name, events[a.id].signature, a.arg)])
    ensures Replay(events, rs + Recorded(last, a.time, a.id, a.arg), start).1 == a.time + drift'
  {
    hide RecordOk, AcceptedOk, RecordsOk, SetTimeDefined, Replay, Printable, ArgFits, InSigned, Pow256;
    var added := Recorded(last, a.time, a.id, a.arg);
    RecordedFits(events, last, a);
    assert Replay(events, rs, start).0 + [] == Replay(events, rs, start).0;
    if |added| == 2 {
      assert added == [added[0], added[1]];
      ReplayAppendTwo(events, rs, added[0], added[1], start);
    } else {
      assert added == [added[0]];
      RecordsAppend(events, rs, added[0]);
      ReplayAppend(events, rs, added[0], start);
    }
  }

  lemma RecordsAppend(events: seq<Event>, rs: seq<Record>, r: Record)
    requires RecordsOk(events, rs) && RecordOk(events, r)
    ensures RecordsOk(events, rs + [r])
  {
  }

  lemma RecordedFits(events: seq<Event>, last: int, a: Accepted)
    requires AcceptedOk(events, a) && SetTimeDefined(events)
    ensures a.id < |events| && (a.id == EVENT_SET_TIME ==> a.arg.Int64?)
    ensures var added := Recorded(last, a.time, a.id, a.arg);
      RecordOk(events, added[0]) && (|added| == 2 ==> RecordOk(events, added[1]))
  {
  }

  /**
    Replaying everything recorded reports every accepted event, in order, at its recorded time plus its drift; the
    replay's own clock ends at the last recorded time plus the last drift.
   */
  lemma {:induction false} ReplayUndoesRecording(events: seq<Event>, start: int, acc: seq<Accepted>)
    requires AllAccepted(events, acc) && SetTimeDefined(events)
    ensures RecordsOk(events, AllRecorded(start, acc))
    ensures Replay(events, AllRecorded(start, acc), start).0 == Expected(events, start, acc)
    ensures Replay(events, AllRecorded(start, acc), start).1 == LastTime(start, acc) + Drift(start, acc)
  {
    hide RecordOk, Printable, AcceptedOk, RecordsOk, ArgFits, InSigned, Pow256, SetTimeDefined, Recorded, ReplayOne;
    RecordedOk(events, start, acc);
    if acc != [] {
      var a := acc[|acc| - 1];
      var before := acc[..|acc| - 1];
      assert AcceptedOk(events, a);
      RecordedOk(events, start, before);
      ReplayUndoesRecording(events, start, before);
      ReplayStep(events, AllRecorded(start, before), start, LastTime(start, before), Drift(start, before),
                 Drift(start, acc), a);
    }
  }

  ghost predicate TimesOrdered(start: int, acc: seq<Accepted>) {
    forall k :: 0 <= k < |acc| ==> acc[k].time >= LastTime(start, acc[..k])
  }

  // User code leaves perf.setTime to the log.
  ghost predicate NoUserSetTime(acc: seq<Accepted>) {
    forall k :: 0 <= k < |acc| ==> acc[k].id != EVENT_SET_TIME
  }

  // An accepted event as it should be replayed.
  ghost function Shown(events: seq<Event>, a: Accepted): Replayed
    requires AcceptedOk(events, a)
  {
    Replayed(a.time, events[a.id].name, events[a.id].signature, a.arg)
  }

  ghost function Exactly(events: seq<Event>, acc: seq<Accepted>): (r: seq<Replayed>)
    requires AllAccepted(events, acc)
    ensures |r| == |acc|
  {
    seq(|acc|, k requires 0 <= k < |acc| => Shown(events, acc[k]))
  }

  lemma ExactlyLast(events: seq<Event>, acc: seq<Accepted>)
    requires acc != [] && AllAccepted(events, acc)
    ensures AllAccepted(events, acc[..|acc| - 1]) && AcceptedOk(events, acc[|acc| - 1])
    ensures Exactly(events, acc) == Exactly(events, acc[..|acc| - 1]) + [Shown(events, acc[|acc| - 1])]
  {
  }

  // The last event is replayed late by the drift.
  lemma ExpectedLast(events: seq<Event>, start: int, acc: seq<Accepted>)
    requires acc != [] && AllAccepted(events, acc) && NoUserSetTime(acc)
    ensures AllAccepted(events, acc[..|acc| - 1]) && AcceptedOk(events, acc[|acc| - 1])
    ensures
      var shown := Shown(events, acc[|acc| - 1]);
      Expected(events, start, acc)
      == Expected(events, start, acc[..|acc| - 1]) + [shown.(time := shown.time + Drift(start, acc))]
  {
    hide AcceptedOk, LastTime, BackwardStep;
  }

  // Without user perf.setTime records the drift is never negative, and is zero exactly when no step since the last
  // perf.setTime record went backward.
  lemma {:induction false} DriftZeroIff(start: int, acc: seq<Accepted>)
    requires NoUserSetTime(acc)
    ensures Drift(start, acc) >= 0
    ensures Drift(start, acc) == 0 <==> NoStepBackSinceReset(start, acc)
  {
    if acc != [] {
      DriftZeroIff(start, acc[..|acc| - 1]);
    }
  }

  ghost predicate NoStepBackSinceReset(start: int, acc: seq<Accepted>) {
    acc == [] || Resets(start, acc) ||
      (acc[|acc| - 1].time >= LastTime(start, acc[..|acc| - 1]) && NoStepBackSinceReset(start, acc[..|acc| - 1]))
  }

  lemma {:induction false} OrderedDrift(start: int, acc: seq<Accepted>)
    requires TimesOrdered(start, acc) && NoUserSetTime(acc)
    ensures Drift(start, acc) == 0
  {
    if acc != [] {
      OrderedBefore(start, acc);
      hide TimesOrdered;
      OrderedDrift(start, acc[..|acc| - 1]);
    }
  }

  // With times that never go back, a replay is the accepted events exactly.
  lemma {:induction false} OrderedReplayIsExact(events: seq<Event>, start: int, acc: seq<Accepted>)
    requires AllAccepted(events, acc) && TimesOrdered(start, acc) && NoUserSetTime(acc)
    ensures Expected(events, start, acc) == Exactly(events, acc)
  {
    if acc != [] {
      OrderedDrift(start, acc);
      OrderedBefore(start, acc);
      AcceptedBefore(events, acc);
      ExactlyLast(events, acc);
      ExpectedLast(events, start, acc);
      hide AcceptedOk, TimesOrdered, Drift, AllAccepted, NoUserSetTime, Exactly, Expected;
      OrderedReplayIsExact(events, start, acc[..|acc| - 1]);
    } else {
      assert Exactly(events, acc) == [];
    }
  }

  lemma AcceptedBefore(events: seq<Event>, acc: seq<Accepted>)
    requires acc != [] && AllAccepted(events, acc) && NoUserSetTime(acc)
    ensures AllAccepted(events, acc[..|acc| - 1]) && NoUserSetTime(acc[..|acc| - 1])
    ensures AcceptedOk(events, acc[|acc| - 1]) && acc[|acc| - 1].id < |events|
    ensures acc[|acc| - 1].id != EVENT_SET_TIME
  {
  }

  lemma OrderedBefore(start: int, acc: seq<Accepted>)
    requires acc != [] && TimesOrdered(start, acc)
    ensures TimesOrdered(start, acc[..|acc| - 1]) && acc[|acc| - 1].time >= LastTime(start, acc[..|acc| - 1])
  {
    var before := acc[..|acc| - 1];
    forall k | 0 <= k < |before|
      ensures before[k].time >= LastTime(start, before[..k])
    {
      assert acc[..k] == before[..k];
    }
  }

  lemma {:induction false} EveryEventShows(events: seq<Event>, start: int, acc: seq<Accepted>)
    requires AllAccepted(events, acc) && NoUserSetTime(acc)
    ensures |Expected(events, start, acc)| == |acc|
  {
    if acc != [] {
      AcceptedBefore(events, acc);
      EveryEventShows(events, start, acc[..|acc| - 1]);
    }
  }

  // And only then is it.
  lemma {:induction false} ExactIffOrdered(events: seq<Event>, start: int, acc: seq<Accepted>)
    requires AllAccepted(events, acc) && NoUserSetTime(acc)
    ensures Expected(events, start, acc) == Exactly(events, acc) <==> TimesOrdered(start, acc)
  {
    if TimesOrdered(start, acc) {
      OrderedReplayIsExact(events, start, acc);
    } else if Expected(events, start, acc) == Exactly(events, acc) {
      ExactIsOrdered(events, start, acc);
    }
  }

  lemma {:induction false} ExactIsOrdered(events: seq<Event>, start: int, acc: seq<Accepted>)
    requires AllAccepted(events, acc) && NoUserSetTime(acc) && Expected(events, start, acc) == Exactly(events, acc)
    ensures TimesOrdered(start, acc)
  {
    if acc != [] {
      var n := |acc| - 1;
      AcceptedBefore(events, acc);
      ExactlyLast(events, acc);
      ExpectedLast(events, start, acc);
      EveryEventShows(events, start, acc[..n]);
      DriftZeroIff(start, acc);
      hide AcceptedOk, Drift, AllAccepted, NoUserSetTime, Exactly, Expected;
      assert Expected(events, start, acc)[..n] == Expected(events, start, acc[..n]);
      assert Exactly(events, acc)[..n] == Exactly(events, acc[..n]);
      assert Expected(events, start, acc)[n].time == Exactly(events, acc)[n].time;
      ExactIsOrdered(events, start, acc[..n]);
      OneMoreOrdered(start, acc);
    }
  }

  lemma OneMoreOrdered(start: int, acc: seq<Accepted>)
    requires acc != [] && TimesOrdered(start, acc[..|acc| - 1])
    requires acc[|acc| - 1].time >= LastTime(start, acc[..|acc| - 1])
    ensures TimesOrdered(start, acc)
  {
    var n := |acc| - 1;
    forall k | 0 <= k < |acc|
      ensures acc[k].time >= LastTime(start, acc[..k])
    {
      assert k < n ==> acc[..n][k].time >= LastTime(start, acc[..n][..k]) && acc[..n][..k] == acc[..k];
    }
  }

  // When the last step went back, replay is late by that whole step, on top of what it was late by before.
  lemma BackwardStepShows(events: seq<Event>, start: int, acc: seq<Accepted>)
    requires acc != [] && NoUserSetTime(acc) && AllAccepted(events, acc)
    requires acc[|acc| - 1].time < LastTime(start, acc[..|acc| - 1])
    ensures
      var before := acc[..|acc| - 1];
      var replayed := Expected(events, start, acc);
      && replayed != []
      && replayed[|replayed| - 1].time - acc[|acc| - 1].time
         == Drift(start, before) + (LastTime(start, before) - acc[|acc| - 1].time)
      && Drift(start, before) >= 0
  {
    DriftZeroIff(start, acc[..|acc| - 1]);
  }

  // Events that are not before `time`, and one that is after it, leave the log later than `time` or replay late.
  lemma {:induction false} LaterEventDrifts(start: int, before: seq<Accepted>, later: seq<Accepted>, time: int)
    requires NoUserSetTime(before + later) && forall k :: 0 <= k < |later| ==> later[k].time >= time
    requires exists k :: 0 <= k < |later| && later[k].time > time
    ensures LastTime(start, before + later) > time || Drift(start, before + later) > 0
    decreases |later|
  {
    var n := |later| - 1;
    var acc := before + later;
    assert acc[..|acc| - 1] == before + later[..n];
    DriftZeroIff(start, acc[..|acc| - 1]);
    if later[n].time <= time {
      var k :| 0 <= k < |later| && later[k].time > time;
      assert later[..n][k] == later[k];
      LaterEventDrifts(start, before, later[..n], time);
      LastTimeOf(start, before, later[..n], time);
    }
  }

  lemma LastTimeOf(start: int, before: seq<Accepted>, later: seq<Accepted>, time: int)
    requires later != [] && forall k :: 0 <= k < |later| ==> later[k].time >= time
    ensures LastTime(start, before + later) >= time
  {
  }

  lemma {:induction false} SteadyDrift(start: int, before: seq<Accepted>, later: seq<Accepted>, time: int)
    requires NoUserSetTime(before + later) && forall k :: 0 <= k < |later| ==> later[k].time == time
    requires Drift(start, before) == 0 && LastTime(start, before) <= time
    ensures Drift(start, before + later) == 0 && LastTime(start, before + later) <= time
    decreases |later|
  {
    if later == [] {
      assert before + later == before;
    } else {
      var n := |later| - 1;
      var acc := before + later;
      assert acc[..|acc| - 1] == before + later[..n];
      SteadyDrift(start, before, later[..n], time);
    }
  }

  /**
    Events recorded at `time` or later, ending at `time`, on top of a log that is in step at `time`: the replay of the
    last is late exactly if one of them is later.
   */
  lemma DriftIffLater(start: int, before: seq<Accepted>, later: seq<Accepted>, time: int)
    requires NoUserSetTime(before + later) && later != [] && later[|later| - 1].time == time
    requires forall k :: 0 <= k < |later| ==> later[k].time >= time
    requires Drift(start, before) == 0 && LastTime(start, before) <= time
    ensures Drift(start, before + later) >= 0
    ensures Drift(start, before + later) > 0 <==> exists k :: 0 <= k < |later| && later[k].time > time
  {
    DriftZeroIff(start, before + later);
    if exists k :: 0 <= k < |later| && later[k].time > time {
      LaterEventDrifts(start, before, later, time);
    } else {
      SteadyDrift(start, before, later, time);
    }
  }

  // ---------- printing and parsing one record ----------

  // What replay reads at a record's first byte, whatever follows the record in the block.
  lemma ParsePrint(r: Record, rest: seq<byte>)
    requires Printable(r)
    ensures
      var bs := Print(r) + rest;
      && Decode(bs[0..4]) == r.delta && Decode(bs[4..6]) == r.id
      && bs[6..] == Payload(r.arg) + rest
  {
    var bs := Print(r) + rest;
    assert bs[0..4] == Encode(r.delta, 4);
    assert bs[4..6] == Encode(r.id, 2);
    Widths();
    DecodeEncode(r.delta, 4);
    DecodeEncode(r.id, 2);
  }

  lemma ParsePayload(arg: Arg, signature: string, rest: seq<byte>)
    requires ArgFits(arg, signature)
    ensures
      var bs := Payload(arg) + rest;
      match arg
      case NoArg => bs == rest
      case Int32(i) => DecodeSigned(bs[..4]) == i && bs[4..] == rest
      case Int64(x) => DecodeSigned(bs[..8]) == x && bs[8..] == rest
      case Text(s) => bs[..|s|] == s && bs[|s|] == 0 && bs[|s| + 1..] == rest
  {
    var bs := Payload(arg) + rest;
    match arg
    case NoArg =>
    case Int32(i) => DecodeEncodeSigned(i, 4); assert bs[..4] == EncodeSigned(i, 4);
    case Int64(x) => DecodeEncodeSigned(x, 8); assert bs[..8] == EncodeSigned(x, 8);
    case Text(s) => assert bs[..|s|] == s;
  }

  lemma {:induction false} FlattenSplit<T>(xss: seq<seq<T>>, k: nat)
    requires k <= |xss|
    ensures Flatten(xss) == Flatten(xss[..k]) + Flatten(xss[k..])
  {
    if k == |xss| {
      assert xss[..k] == xss && xss[k..] == [];
    } else {
      var before := xss[..|xss| - 1];
      FlattenSplit(before, k);
      assert before[..k] == xss[..k];
      assert xss[k..][..|xss[k..]| - 1] == before[k..];
    }
  }

  lemma FlattenOne<T>(xs: seq<T>)
    ensures Flatten([xs]) == xs
  {
    assert [xs][..0] == [];
  }

  lemma PrintAllSplit(rs: seq<Record>, k: nat)
    requires AllPrintable(rs) && k <= |rs|
    ensures AllPrintable(rs[..k]) && AllPrintable(rs[k..])
    ensures PrintAll(rs) == PrintAll(rs[..k]) + PrintAll(rs[k..])
  {
    hide Print, Printable, Flatten;
    FlattenSplit(PrintEach(rs), k);
    PrintEachSplit(rs, k);
  }

  lemma PrintEachSplit(rs: seq<Record>, k: nat)
    requires AllPrintable(rs) && k <= |rs|
    ensures AllPrintable(rs[..k]) && AllPrintable(rs[k..])
    ensures PrintEach(rs)[..k] == PrintEach(rs[..k]) && PrintEach(rs)[k..] == PrintEach(rs[k..])
  {
    hide Print, Printable;
  }

  lemma PrintAllOne(r: Record)
    requires Printable(r)
    ensures AllPrintable([r]) && PrintAll([r]) == Print(r)
  {
    hide Print, Printable;
    assert AllPrintable([r]) by {
      assert forall k :: 0 <= k < 1 ==> [r][k] == r;
    }
    FlattenOne(Print(r));
    assert PrintEach([r]) == [Print(r)];
  }

  lemma PrintAllHead(rs: seq<Record>)
    requires AllPrintable(rs) && rs != []
    ensures AllPrintable(rs[1..]) && Printable(rs[0])
    ensures PrintAll(rs) == Print(rs[0]) + PrintAll(rs[1..])
  {
    assert Printable(rs[0]);
    hide Print, Printable;
    PrintAllSplit(rs, 1);
    PrintAllOne(rs[0]);
    assert rs[..1] == [rs[0]];
  }

  lemma PrintAllAppend(rs: seq<Record>, r: Record)
    requires AllPrintable(rs) && Printable(r)
    ensures AllPrintable(rs + [r])
    ensures PrintAll(rs + [r]) == PrintAll(rs) + Print(r)
  {
    hide Print, Printable;
    PrintAllOne(r);
    PrintAllSplit(rs + [r], |rs|);
    assert (rs + [r])[..|rs|] == rs && (rs + [r])[|rs|..] == [r];
  }
}
