/**
  The performance log of src/shell-perf-log.c: an append-only list of 8192-byte blocks, the tables of events and
  statistics, and the replay loop over the bytes. The clock is a parameter of every call that reads it.
 */
module PerfLog {
  import opened Wrappers
  import opened Bytes
  import opened Sequences
  import opened PerfLogModel

  class Block {
    var bytes: nat
    const buffer: array<byte>

    constructor ()
      ensures bytes == 0 && buffer.Length == BLOCK_SIZE && fresh(buffer) && Holds([])
    {
      bytes := 0;
      buffer := new byte[BLOCK_SIZE](_ => 0);
      new;
      assert buffer[..bytes] == PrintAll([]);
    }

    // The three copies that put one record at the end of the block.
    method Write(delta: nat, id: nat, payload: seq<byte>)
      requires bytes + 6 + |payload| <= buffer.Length
      modifies this`bytes, buffer
      ensures bytes == old(bytes) + 6 + |payload| <= buffer.Length
      ensures buffer[..bytes] == old(buffer[..bytes]) + (Encode(delta, 4) + Encode(id, 2) + payload)
    {
      hide Encode;
      var pos := bytes;
      ghost var was := buffer[..];
      CopyInto(buffer, pos, Encode(delta, 4));
      assert buffer[..pos + 4] == was[..bytes] + Encode(delta, 4);
      CopyInto(buffer, pos + 4, Encode(id, 2));
      assert buffer[..pos + 6] == was[..bytes] + Encode(delta, 4) + Encode(id, 2);
      CopyInto(buffer, pos + 6, payload);
      assert buffer[..pos + 6 + |payload|] == was[..bytes] + Encode(delta, 4) + Encode(id, 2) + payload;
      bytes := pos + 6 + |payload|;
    }

    // The block holds exactly these records, whole.
    ghost predicate Holds(rs: seq<PerfLogModel.Record>)
      reads this, buffer
    {
      bytes <= buffer.Length && AllPrintable(rs) && buffer[..bytes] == PrintAll(rs)
    }

    method Put(payload: seq<byte>, delta: nat, id: nat, ghost arg: Arg, ghost rs: seq<PerfLogModel.Record>)
      requires Holds(rs) && Printable(PerfLogModel.Record(delta, id, arg)) && payload == Payload(arg)
      requires bytes + 6 + |payload| <= buffer.Length
      modifies this`bytes, buffer
      ensures Holds(rs + [PerfLogModel.Record(delta, id, arg)])
    {
      ghost var r := PerfLogModel.Record(delta, id, arg);
      PrintAllAppend(rs, r);
      hide Printable, Payload, PrintAll, Encode;
      Write(delta, id, payload);
    }
  }

  // A numeric value recorded when it changed since it was last recorded. `id` is its event.
  datatype Statistic = Statistic(id: nat, current: int, last: int, initialized: bool, recorded: bool)

  // What a statistics callback may do while statistics are collected.
  datatype CallbackAction =
    | Update(name: string, signature: string, value: int)
    | Record(time: int, name: string, arg: Arg)

  // The argument of the latest accepted event `id`.
  ghost function Latest(acc: seq<Accepted>, id: nat): Option<Arg> {
    if acc == [] then None
    else if acc[|acc| - 1].id == id then Some(acc[|acc| - 1].arg)
    else Latest(acc[..|acc| - 1], id)
  }

  function ValueArg(signature: string, value: int): Arg {
    if signature == "i" then Int32(value) else Int64(value)
  }

  // Every field of a log but its blocks and its last time.
  datatype Tables = Tables(events: seq<Event>, eventsByName: map<string, nat>, statistics: seq<Statistic>,
                           statisticsByName: map<string, nat>, enabled: bool)

  ghost predicate EventsOk(events: seq<Event>, eventsByName: map<string, nat>) {
    && |events| <= 0x1_0000 && SetTimeDefined(events)
    && (forall i {:trigger events[i]} :: 0 <= i < |events| ==>
         && SupportedSignature(events[i].signature) && '"' !in events[i].name
         && events[i].name in eventsByName && eventsByName[events[i].name] == i)
    && (forall n :: n in eventsByName ==> eventsByName[n] < |events| && events[eventsByName[n]].name == n)
  }

  ghost predicate StatisticOk(events: seq<Event>, x: Statistic) {
    && EVENT_STATISTICS_COLLECTED < x.id < |events|
    && (events[x.id].signature == "i" || events[x.id].signature == "x")
    && ArgFits(ValueArg(events[x.id].signature, x.current), events[x.id].signature)
  }

  ghost predicate StatisticsOk(events: seq<Event>, statistics: seq<Statistic>, statisticsByName: map<string, nat>) {
    && (forall i {:trigger statistics[i]} :: 0 <= i < |statistics| ==>
         && StatisticOk(events, statistics[i])
         && events[statistics[i].id].name in statisticsByName
         && statisticsByName[events[statistics[i].id].name] == i)
    && (forall i, j {:trigger statistics[i], statistics[j]} :: 0 <= i < j < |statistics| ==>
         statistics[i].id != statistics[j].id)
    && (forall n :: n in statisticsByName ==>
         statisticsByName[n] < |statistics| && events[statistics[statisticsByName[n]].id].name == n)
  }

  // A statistic whose latest record was made by a collection (its event is not in `foreign`): that value is `last`.
  ghost predicate InStep(events: seq<Event>, acc: seq<Accepted>, foreign: set<nat>, x: Statistic) {
    x.recorded && x.id !in foreign && x.id < |events| ==>
      Latest(acc, x.id) == Some(ValueArg(events[x.id].signature, x.last))
  }

  // At entry k the log told, for each event id of `values`, that value.
  ghost predicate SnapshotOk(acc: seq<Accepted>, k: nat, values: map<nat, Arg>) {
    && k < |acc| && acc[k].id == EVENT_STATISTICS_COLLECTED
    && forall id :: id in values ==> Latest(acc[..k], id) == Some(values[id])
  }

  // The records stored are those of the events accepted, and the past collections told the truth.
  ghost predicate Consistent(events: seq<Event>, start: int, last: int, acc: seq<Accepted>,
                             records: seq<PerfLogModel.Record>, snapshots: map<nat, map<nat, Arg>>) {
    && InSigned(start, 8) && AllAccepted(events, acc) && last == LastTime(start, acc)
    && records == AllRecorded(start, acc)
    && (forall k :: k in snapshots ==> SnapshotOk(acc, k, snapshots[k]))
  }

  lemma ConsistentMore(events: seq<Event>, start: int, last: int, acc: seq<Accepted>,
                       records: seq<PerfLogModel.Record>, snapshots: map<nat, map<nat, Arg>>, a: Accepted)
    requires Consistent(events, start, last, acc, records, snapshots) && AcceptedOk(events, a)
    ensures Consistent(events, start, a.time, acc + [a], records + Recorded(last, a.time, a.id, a.arg), snapshots)
  {
    hide AcceptedOk, InSigned, Recorded;
    var acc' := acc + [a];
    assert acc'[..|acc|] == acc;
    forall k | 0 <= k < |acc'|
      ensures AcceptedOk(events, acc'[k])
    {
      assert k < |acc| ==> AcceptedOk(events, acc[k]);
    }
    forall k | k in snapshots
      ensures SnapshotOk(acc', k, snapshots[k])
    {
      assert SnapshotOk(acc, k, snapshots[k]);
      assert acc'[..k] == acc[..k];
    }
  }

  lemma InStepMore(events: seq<Event>, acc: seq<Accepted>, foreign: set<nat>, foreign': set<nat>, a: Accepted,
                   x: Statistic)
    requires InStep(events, acc, foreign, x) && (a.id != x.id || a.id in foreign')
    requires x.id in foreign ==> x.id in foreign'
    ensures InStep(events, acc + [a], foreign', x)
  {
    assert (acc + [a])[..|acc|] == acc;
  }

  class Log {
    var events: seq<Event>
    var eventsByName: map<string, nat>
    var statistics: seq<Statistic>
    var statisticsByName: map<string, nat>
    var blocks: seq<Block>
    const startTime: int
    var lastTime: int
    var enabled: bool

    ghost var written: seq<seq<PerfLogModel.Record>>   // the records in each block
    ghost var accepted: seq<Accepted>                  // the events accepted, in order
    ghost var foreign: set<nat>                        // events whose latest record was not made by a collection
    ghost var snapshots: map<nat, map<nat, Arg>>       // the statistics at each collection, by its place in `accepted`
    ghost var Repr: set<object>

    ghost function AllTables(): Tables
      reads this
    {
      Tables(events, eventsByName, statistics, statisticsByName, enabled)
    }

    // Everything but how the statistics compare to the log.
    ghost predicate Sound()
      reads this, Repr
    {
      && Stored() && EventsOk(events, eventsByName) && StatisticsOk(events, statistics, statisticsByName)
      && Consistent(events, startTime, lastTime, accepted, Flatten(written), snapshots)
    }

    ghost predicate Valid()
      reads this, Repr
    {
      Sound() && forall i :: 0 <= i < |statistics| ==> InStep(events, accepted, foreign, statistics[i])
    }

    // The blocks hold whole records, and nothing else.
    ghost predicate Stored()
      reads this, Repr
    {
      && this in Repr
      && (forall i {:trigger blocks[i]} :: 0 <= i < |blocks| ==>
           blocks[i] in Repr && blocks[i].buffer in Repr && blocks[i].buffer.Length == BLOCK_SIZE)
      && (forall i, j {:trigger blocks[i], blocks[j]} :: 0 <= i < j < |blocks| ==>
           blocks[i] != blocks[j] && blocks[i].buffer != blocks[j].buffer)
      && |written| == |blocks|
      && (forall i {:trigger written[i]} :: 0 <= i < |blocks| ==>
           blocks[i].Holds(written[i]))
    }

    // The block a record of `total` bytes goes into: the last one, or a new one when it does not fit.
    method RoomFor(total: nat)
      requires Stored() && total <= BLOCK_SIZE
      modifies this`blocks, this`written, this`Repr
      ensures Stored() && fresh(Repr - old(Repr)) && old(Repr) <= Repr
      ensures Flatten(written) == old(Flatten(written))
      ensures blocks != [] && total + blocks[|blocks| - 1].bytes <= BLOCK_SIZE
    {
      hide Block.Holds;
      if |blocks| == 0 || total + blocks[|blocks| - 1].bytes > BLOCK_SIZE {
        var block := new Block();
        blocks := blocks + [block];
        written := written + [[]];
        Repr := Repr + {block, block.buffer};
        assert written[..|written| - 1] == old(written);
      }
    }

    method Append(delta: nat, id: nat, bytes: seq<byte>, ghost arg: Arg)
      requires Stored() && Printable(PerfLogModel.Record(delta, id, arg)) && bytes == Payload(arg)
      requires 6 + |bytes| <= BLOCK_SIZE
      modifies Repr
      ensures Stored() && fresh(Repr - old(Repr))
      ensures AllTables() == old(AllTables()) && lastTime == old(lastTime) && accepted == old(accepted)
      ensures foreign == old(foreign) && snapshots == old(snapshots)
      ensures Flatten(written) == old(Flatten(written)) + [PerfLogModel.Record(delta, id, arg)]
    {
      hide Printable, Payload, Flatten, Block.Holds;
      RoomFor(6 + |bytes|);
      var n := |blocks| - 1;
      ghost var rs := written[n];
      FlattenGrow(written, n, PerfLogModel.Record(delta, id, arg));
      blocks[n].Put(bytes, delta, id, arg, rs);
      assert forall i {:trigger blocks[i]} :: 0 <= i < n ==> blocks[i].Holds(written[i]);
      written := written[n := rs + [PerfLogModel.Record(delta, id, arg)]];
    }

    // record_event. `bytes` are the argument's bytes; the result says whether the event was stored.
    method RecordEvent(time: int, id: nat, bytes: seq<byte>, ghost arg: Arg) returns (ok: bool)
      requires Stored() && SetTimeDefined(events)
      requires AcceptedOk(events, Accepted(time, id, arg)) && bytes == Payload(arg)
      modifies Repr
      ensures Stored() && fresh(Repr - old(Repr))
      ensures AllTables() == old(AllTables()) && accepted == old(accepted)
      ensures foreign == old(foreign) && snapshots == old(snapshots)
      ensures ok <==> enabled && 6 + |bytes| <= BLOCK_SIZE
      ensures lastTime == if ok then time else old(lastTime)
      ensures Flatten(written) ==
              old(Flatten(written)) + if ok then Recorded(old(lastTime), time, id, arg) else []
      decreases if time > lastTime + MAX_DELTA then 1 else 0
    {
      hide Block.Holds, InSigned, Pow256, Flatten, EncodeSigned;
      if !enabled {
        return false;
      }
      if |bytes| > BLOCK_SIZE || 6 + |bytes| > BLOCK_SIZE {
        return false;   // discarding an oversize event
      }
      var delta: nat := 0;
      if time > lastTime + MAX_DELTA {
        lastTime := time;
        var escaped := RecordEvent(time, EVENT_SET_TIME, EncodeSigned(time, 8), Int64(time));
      } else if time < lastTime {
      } else {
        delta := time - lastTime;
      }
      lastTime := time;
      Append(delta, id, bytes, arg);
      return true;
    }

    // Storing an event and noting, for the specification, that it was accepted.
    method Accept(time: int, id: nat, bytes: seq<byte>, ghost arg: Arg, ghost byCollection: bool) returns (ok: bool)
      requires Sound() && AcceptedOk(events, Accepted(time, id, arg)) && bytes == Payload(arg)
      modifies Repr
      ensures Sound() && fresh(Repr - old(Repr))
      ensures AllTables() == old(AllTables()) && snapshots == old(snapshots)
      ensures foreign == if !ok then old(foreign) else if byCollection then old(foreign) - {id} else old(foreign) + {id}
      ensures ok <==> enabled && 6 + |bytes| <= BLOCK_SIZE
      ensures accepted == old(accepted) + if ok then [Accepted(time, id, arg)] else []
      ensures forall x :: InStep(events, old(accepted), old(foreign), x) && (byCollection ==> x.id != id) ==>
                InStep(events, accepted, foreign, x)
    {
      hide Consistent, AcceptedOk, Payload, InSigned, EventsOk, StatisticsOk, Flatten, InStep, Block.Holds;
      EventsAreDefined(events, eventsByName);
      ghost var a := Accepted(time, id, arg);
      ConsistentMore(events, startTime, lastTime, accepted, Flatten(written), snapshots, a);
      assert Flatten(written) + [] == Flatten(written);
      ok := RecordEvent(time, id, bytes, arg);
      assert AllTables() == old(AllTables()) ==> events == old(events) && statistics == old(statistics);
      if ok {
        ghost var foreign' := if byCollection then foreign - {id} else foreign + {id};
        forall x | InStep(events, accepted, foreign, x) && (byCollection ==> x.id != id)
          ensures InStep(events, accepted + [a], foreign', x)
        {
          InStepMore(events, accepted, foreign, foreign', a, x);
        }
        foreign := foreign';
        accepted := accepted + [a];
      }
    }

    // shell_perf_log_init
    constructor (now: int)
      requires InSigned(now, 8)
      ensures Valid() && fresh(Repr) && startTime == lastTime == now && !enabled
      ensures accepted == [] && written == [] && statistics == [] && foreign == {} && snapshots == map[]
      ensures events == [Event("perf.setTime", "x"), Event("perf.statisticsCollected", "x")]
      ensures eventsByName == map["perf.setTime" := 0, "perf.statisticsCollected" := 1]
    {
      events := [Event("perf.setTime", "x"), Event("perf.statisticsCollected", "x")];
      eventsByName := map["perf.setTime" := 0, "perf.statisticsCollected" := 1];
      statistics, statisticsByName := [], map[];
      blocks, written, accepted := [], [], [];
      foreign, snapshots := {}, map[];
      startTime, lastTime, enabled := now, now, false;
      Repr := {this};
      new;
      InitialTables(now);
      hide EventsOk, Consistent, StatisticsOk, InSigned;
    }

    // shell_perf_log_set_enabled, without the periodic collection timer
    method SetEnabled(enable: bool)
      requires Valid()
      modifies this`enabled
      ensures Valid() && enabled == enable
    {
      hide Consistent, EventsOk, StatisticsOk, InStep, Block.Holds, Flatten;
      enabled := enable;
    }

    // define_event: the new event's id, or None where the source warns and defines nothing.
    method DefineEvent(name: string, signature: string) returns (id: Option<nat>)
      requires Valid()
      modifies this`events, this`eventsByName
      ensures Valid()
      ensures id.Some? <==>
              SupportedSignature(signature) && |old(events)| != 0x1_0000 && '"' !in name && name !in old(eventsByName)
      ensures id.Some? ==>
              && id.value == |old(events)| && events == old(events) + [Event(name, signature)]
              && eventsByName == old(eventsByName)[name := id.value]
      ensures id.None? ==> events == old(events) && eventsByName == old(eventsByName)
    {
      hide InStep, Consistent, StatisticsOk, Flatten, Block.Holds;
      if !SupportedSignature(signature) || |events| == 0x1_0000 || '"' in name || name in eventsByName {
        return None;
      }
      ghost var before := events;
      id := Some(|events|);
      eventsByName := eventsByName[name := |events|];
      events := events + [Event(name, signature)];
      ConsistentDefined(before, events, startTime, lastTime, accepted, Flatten(written), snapshots);
      StatisticsDefined(before, events, statistics, statisticsByName);
      forall i | 0 <= i < |statistics|
        ensures InStep(events, accepted, foreign, statistics[i])
      {
        InStepDefined(before, events, accepted, foreign, statistics, statisticsByName, i);
      }
    }

    // lookup_event
    function LookupEvent(name: string, signature: string): (id: Option<nat>)
      requires EventsOk(events, eventsByName)
      reads this
      ensures id == KnownEvent(events, eventsByName, name, signature)
    {
      if name in eventsByName && events[eventsByName[name]].signature == signature then Some(eventsByName[name])
      else None
    }

    // shell_perf_log_event, _event_i, _event_x and _event_s, by the argument.
    method RecordNamed(time: int, name: string, arg: Arg)
      requires Valid() && InSigned(time, 8) && ArgFits(arg, SignatureOf(arg))
      modifies Repr
      ensures Valid() && fresh(Repr - old(Repr)) && AllTables() == old(AllTables()) && snapshots == old(snapshots)
      ensures
        var id := old(LookupEvent(name, SignatureOf(arg)));
        accepted == old(accepted) +
          if id.Some? && enabled && 6 + |Payload(arg)| <= BLOCK_SIZE then [Accepted(time, id.value, arg)] else []
      ensures foreign == old(foreign) + IdsOf(accepted[|old(accepted)|..])
    {
      hide InStep, Consistent, StatisticsOk, Flatten, Block.Holds, Payload, InSigned;
      var id := LookupEvent(name, SignatureOf(arg));
      if id.None? {
        return;   // discarding an unknown event, or one defined with another signature
      }
      assert AcceptedOk(events, Accepted(time, id.value, arg));
      var ok := Accept(time, id.value, Payload(arg), arg, false);
      assert AllTables() == old(AllTables()) ==> events == old(events) && statistics == old(statistics);
    }

    // shell_perf_log_define_statistic
    method DefineStatistic(name: string, signature: string) returns (ok: bool)
      requires Valid()
      modifies this`events, this`eventsByName, this`statistics, this`statisticsByName
      ensures Valid()
      ensures ok <==> (signature == "i" || signature == "x") && |old(events)| != 0x1_0000 && '"' !in name
                      && name !in old(eventsByName)
      ensures ok ==> statistics == old(statistics) + [Statistic(|old(events)|, 0, 0, false, false)]
      ensures ok ==> events == old(events) + [Event(name, signature)] && (signature == "i" || signature == "x")
      ensures ok ==> eventsByName == old(eventsByName)[name := |old(events)|]
                     && statisticsByName == old(statisticsByName)[name := |old(statistics)|]
      ensures !ok ==> AllTables() == old(AllTables())
    {
      hide InStep, Consistent, Flatten, Block.Holds, StatisticsOk, EventsOk;
      if signature != "i" && signature != "x" {
        return false;
      }
      StatisticIds(events, statistics, statisticsByName);
      EventsAreDefined(events, eventsByName);
      var id := DefineEvent(name, signature);
      if id.None? {
        return false;
      }
      var x := Statistic(id.value, 0, 0, false, false);
      NewStatistic(events, eventsByName, statistics, statisticsByName, name, x, accepted, foreign);
      statisticsByName := statisticsByName[name := |statistics|];
      statistics := statistics + [x];
      return true;
    }

    // shell_perf_log_update_statistic_i and _x
    method UpdateStatistic(name: string, signature: string, value: int)
      requires Valid() && ArgFits(ValueArg(signature, value), signature)
      modifies this`statistics
      ensures Valid()
      ensures
        statistics ==
          if name in statisticsByName && events[old(statistics)[statisticsByName[name]].id].signature == signature
          then var i := statisticsByName[name];
               old(statistics)[i := old(statistics)[i].(current := value, initialized := true)]
          else old(statistics)
    {
      hide Consistent, Flatten, Block.Holds, InSigned, EventsOk;
      if name !in statisticsByName || events[statistics[statisticsByName[name]].id].signature != signature {
        return;
      }
      var i := statisticsByName[name];
      statistics := statistics[i := statistics[i].(current := value, initialized := true)];
    }

    // One turn of the loop below.
    method RecordIfChanged(i: nat, time: int)
      requires Valid() && enabled && InSigned(time, 8) && i < |statistics|
      modifies Repr
      ensures Valid() && fresh(Repr - old(Repr)) && enabled
      ensures events == old(events) && eventsByName == old(eventsByName) && statisticsByName == old(statisticsByName)
      ensures foreign == old(foreign) - IdsOf(ChangedOne(events, old(statistics)[i], time))
      ensures snapshots == old(snapshots)
      ensures accepted == old(accepted) + ChangedOne(events, old(statistics)[i], time)
      ensures statistics == old(statistics)[i := Told(old(statistics)[i])]
    {
      hide Consistent, Flatten, Block.Holds, InSigned, EventsOk, Payload, StatisticsOk, StatisticOk;
      var x := statistics[i];
      ToldFits(events, statistics, statisticsByName, i);
      if x.initialized && (!x.recorded || x.current != x.last) {
        EventsAreDefined(events, eventsByName);
        StatisticFits(events, x, time);
        ghost var arg := ValueArg(events[x.id].signature, x.current);
        ghost var acc := accepted;
        var ok := Accept(time, x.id, Payload(ValueArg(events[x.id].signature, x.current)), arg, true);
        assert AllTables() == old(AllTables()) ==> events == old(events) && statistics == old(statistics);
        assert accepted[..|accepted| - 1] == acc;
        assert Latest(accepted, x.id) == Some(arg);
        statistics := statistics[i := x.(last := x.current, recorded := true)];
      }
    }

    // The loop of shell_perf_log_collect_statistics that records the statistics that changed.
    method RecordChanged(time: int)
      requires Valid() && enabled && InSigned(time, 8)
      modifies Repr
      ensures Valid() && fresh(Repr - old(Repr)) && enabled
      ensures events == old(events) && eventsByName == old(eventsByName) && statisticsByName == old(statisticsByName)
      ensures foreign == old(foreign) - IdsOf(Changed(events, old(statistics), time)) && snapshots == old(snapshots)
      ensures accepted == old(accepted) + Changed(events, old(statistics), time)
      ensures statistics == AllTold(old(statistics))
    {
      hide Sound, InStep, ChangedOne, Told, InSigned;
      ghost var before := statistics;
      var i := 0;
      while i < |statistics|
        invariant 0 <= i <= |statistics| == |before|
        invariant Valid() && fresh(Repr - old(Repr)) && enabled
        invariant events == old(events) && eventsByName == old(eventsByName)
        invariant statisticsByName == old(statisticsByName)
        invariant foreign == old(foreign) - IdsOf(Changed(events, before[..i], time)) && snapshots == old(snapshots)
        invariant accepted == old(accepted) + Changed(events, before[..i], time)
        invariant statistics == AllTold(before[..i]) + before[i..]
      {
        assert before[..i + 1][..i] == before[..i];
        IdsOfBoth(Changed(events, before[..i], time), ChangedOne(events, before[i], time));
        RecordIfChanged(i, time);
        ToldNext(before, i);
        i := i + 1;
      }
      assert before[..i] == before;
    }

    // The callbacks of shell_perf_log_collect_statistics, with what each does.
    method RunCallbacks(actions: seq<CallbackAction>)
      requires Valid() && forall k :: 0 <= k < |actions| ==> ActionFits(actions[k])
      modifies Repr
      ensures Valid() && fresh(Repr - old(Repr)) && enabled == old(enabled)
      ensures events == old(events) && eventsByName == old(eventsByName) && statisticsByName == old(statisticsByName)
      ensures accepted == old(accepted) + CallbackEvents(events, eventsByName, enabled, actions)
      ensures statistics == Updated(events, statisticsByName, old(statistics), actions)
      ensures foreign == old(foreign) + IdsOf(CallbackEvents(events, eventsByName, enabled, actions))
      ensures snapshots == old(snapshots)
    {
      hide Sound, InStep, ActionFits, Payload, CallbackEvent, UpdatedBy;
      for k := 0 to |actions|
        invariant Valid() && fresh(Repr - old(Repr)) && enabled == old(enabled)
        invariant events == old(events) && eventsByName == old(eventsByName)
        invariant statisticsByName == old(statisticsByName)
        invariant accepted == old(accepted) + CallbackEvents(events, eventsByName, enabled, actions[..k])
        invariant statistics == Updated(events, statisticsByName, old(statistics), actions[..k])
        invariant foreign == old(foreign) + IdsOf(CallbackEvents(events, eventsByName, enabled, actions[..k]))
        invariant snapshots == old(snapshots)
      {
        assert actions[..k + 1][..k] == actions[..k];
        IdsOfBoth(CallbackEvents(events, eventsByName, enabled, actions[..k]),
                  CallbackEvent(events, eventsByName, enabled, actions[k]));
        RunCallback(actions[k]);
      }
      assert actions[..|actions|] == actions;
    }

    method RunCallback(action: CallbackAction)
      requires Valid() && ActionFits(action)
      modifies Repr
      ensures Valid() && fresh(Repr - old(Repr)) && enabled == old(enabled)
      ensures events == old(events) && eventsByName == old(eventsByName) && statisticsByName == old(statisticsByName)
      ensures accepted == old(accepted) + CallbackEvent(events, eventsByName, enabled, action)
      ensures statistics == UpdatedBy(events, statisticsByName, old(statistics), action)
      ensures foreign == old(foreign) + IdsOf(CallbackEvent(events, eventsByName, enabled, action))
      ensures snapshots == old(snapshots)
    {
      hide InStep, Consistent, StatisticsOk, EventsOk, Flatten, Block.Holds, Payload;
      match action {
        case Update(name, signature, value) =>
          StatisticKnown(events, statistics, statisticsByName, name);
          UpdateStatistic(name, signature, value);
        case Record(time, name, arg) =>
          RecordNamed(time, name, arg);
          assert AllTables() == old(AllTables()) ==> events == old(events) && statistics == old(statistics);
      }
    }

    /**
      shell_perf_log_collect_statistics. `time` is read before the callbacks, `end` after them. What the callbacks
      recorded comes first, then the statistics that changed and the closing record, all of these stamped with `time`.
      Afterwards the log's latest value of every initialised statistic is its current value, and stays on record as
      such.
     */
    method Collect(time: int, end: int, actions: seq<CallbackAction>)
      requires Valid() && forall k :: 0 <= k < |actions| ==> ActionFits(actions[k])
      requires InSigned(time, 8) && InSigned(end - time, 8)
      modifies Repr
      ensures Valid() && fresh(Repr - old(Repr)) && enabled == old(enabled)
      ensures events == old(events) && eventsByName == old(eventsByName) && statisticsByName == old(statisticsByName)
      ensures !enabled ==> accepted == old(accepted) && statistics == old(statistics) && foreign == old(foreign)
      ensures enabled ==>
        var called := CallbackEvents(events, eventsByName, true, actions);
        var updated := Updated(events, statisticsByName, old(statistics), actions);
        && accepted == old(accepted) + called + Changed(events, updated, time)
                       + [Accepted(time, EVENT_STATISTICS_COLLECTED, Int64(end - time))]
        && statistics == AllTold(updated)
        && foreign == old(foreign) + IdsOf(called) - IdsOf(Changed(events, updated, time))
                      - {EVENT_STATISTICS_COLLECTED}
        && CollectedExactly(events, old(accepted) + called, updated, accepted[..|accepted| - 1])
        && |accepted| - 1 in snapshots
        && AllOnRecord(events, statistics, foreign, snapshots[|accepted| - 1])
      ensures forall k :: k in old(snapshots) ==> k in snapshots && snapshots[k] == old(snapshots)[k]
    {
      if !enabled {
        return;
      }
      hide *;
      CollectEnabled(time, end, actions);
    }

    method CollectEnabled(time: int, end: int, actions: seq<CallbackAction>)
      requires Valid() && enabled && forall k :: 0 <= k < |actions| ==> ActionFits(actions[k])
      requires InSigned(time, 8) && InSigned(end - time, 8)
      modifies Repr
      ensures Valid() && fresh(Repr - old(Repr)) && enabled
      ensures events == old(events) && eventsByName == old(eventsByName) && statisticsByName == old(statisticsByName)
      ensures
        var called := CallbackEvents(events, eventsByName, true, actions);
        var updated := Updated(events, statisticsByName, old(statistics), actions);
        && accepted == old(accepted) + called + Changed(events, updated, time)
                       + [Accepted(time, EVENT_STATISTICS_COLLECTED, Int64(end - time))]
        && statistics == AllTold(updated)
        && foreign == old(foreign) + IdsOf(called) - IdsOf(Changed(events, updated, time))
                      - {EVENT_STATISTICS_COLLECTED}
        && CollectedExactly(events, old(accepted) + called, updated, accepted[..|accepted| - 1])
      ensures |accepted| - 1 in snapshots && AllOnRecord(events, statistics, foreign, snapshots[|accepted| - 1])
      ensures forall k :: k in old(snapshots) ==> k in snapshots && snapshots[k] == old(snapshots)[k]
    {
      hide Valid, ActionFits, InSigned, AllOnRecord, Changed, Told, AllTold, CallbackEvents, Updated, IdsOf;
      hide CollectedExactly;
      RunCallbacks(actions);
      ToldTwice(statistics);
      StatisticsThere();
      CollectedIs(events, accepted, statistics, time);
      RecordChanged(time);
      Mark(time, end - time);
      assert AllTables() == AllTables();
    }

    lemma EventsThere()
      requires Valid()
      ensures EventsOk(events, eventsByName)
    {
    }

    lemma StatisticsThere()
      requires Valid()
      ensures forall i :: 0 <= i < |statistics| ==> statistics[i].id < |events|
      ensures forall i, j {:trigger statistics[i], statistics[j]} :: 0 <= i < j < |statistics| ==>
                statistics[i].id != statistics[j].id
    {
      StatisticIds(events, statistics, statisticsByName);
      assert StatisticsOk(events, statistics, statisticsByName);
    }

    /**
      Collecting can make the log's time go back. When the callbacks ran at `time` or later, as a clock that does not go
      back has it, and the log was in step at `time` before: the replayed time of the closing record is late exactly if
      a callback recorded an event later than `time`.
     */
    method CollectBackward(time: int, end: int, actions: seq<CallbackAction>)
      requires Valid() && enabled && forall k :: 0 <= k < |actions| ==> ActionFits(actions[k])
      requires InSigned(time, 8) && InSigned(end - time, 8) && NoUserSetTime(accepted)
      requires Drift(startTime, accepted) == 0 && LastTime(startTime, accepted) <= time
      requires
        var called := CallbackEvents(events, eventsByName, true, actions);
        NoUserSetTime(called) && forall k :: 0 <= k < |called| ==> called[k].time >= time
      modifies Repr
      ensures Valid() && fresh(Repr - old(Repr)) && events == old(events) && AllAccepted(events, accepted)
      ensures
        var called := CallbackEvents(events, old(eventsByName), true, actions);
        var replayed := Expected(events, startTime, accepted);
        && replayed != [] && replayed[|replayed| - 1].time >= time
        && (replayed[|replayed| - 1].time > time <==> exists k :: 0 <= k < |called| && called[k].time > time)
    {
      hide InStep, ActionFits, InSigned, AllOnRecord, Changed, Told, CallbackEvents, Updated, Drift, NoUserSetTime,
           LastTime, Expected, AcceptedOk, Consistent, EventsOk, StatisticsOk, Stored;
      ghost var before, xs := accepted, statistics;
      Collect(time, end, actions);
      ghost var called := CallbackEvents(events, eventsByName, true, actions);
      ghost var updated := Updated(events, statisticsByName, xs, actions);
      ghost var changed := Changed(events, updated, time);
      AreAccepted(events, startTime, lastTime, accepted, Flatten(written), snapshots);
      ToldAreStatistics(events, updated, statistics, statisticsByName);
      ChangedAtTime(events, updated, time);
      ghost var mark := Accepted(time, EVENT_STATISTICS_COLLECTED, Int64(end - time));
      CollectedLate(events, startTime, before, called, changed, mark, accepted);
    }

    // The closing perf.statisticsCollected record of a collection that has told every statistic.
    method Mark(time: int, elapsed: int)
      requires Valid() && enabled && InSigned(time, 8) && InSigned(elapsed, 8)
      requires forall i :: 0 <= i < |statistics| ==> statistics[i] == Told(statistics[i])
      modifies Repr
      ensures Valid() && fresh(Repr - old(Repr)) && AllTables() == old(AllTables())
      ensures accepted == old(accepted) + [Accepted(time, EVENT_STATISTICS_COLLECTED, Int64(elapsed))]
      ensures foreign == old(foreign) - {EVENT_STATISTICS_COLLECTED} && |old(accepted)| in snapshots
      ensures AllOnRecord(events, statistics, foreign, snapshots[|old(accepted)|])
      ensures snapshots.Keys == old(snapshots).Keys + {|old(accepted)|}
      ensures forall k :: k in old(snapshots) ==> snapshots[k] == old(snapshots)[k]
    {
      hide Consistent, Flatten, Block.Holds, InSigned, EventsOk, StatisticsOk, StatisticOk;
      EventsAreDefined(events, eventsByName);
      ghost var k := |accepted|;
      ghost var values := Values(events, statistics, foreign);
      ValuesOnRecord(events, statistics, statisticsByName, foreign, accepted);
      StatisticIds(events, statistics, statisticsByName);
      SnapshotsBelow(events, startTime, lastTime, accepted, Flatten(written), snapshots);
      var ok := Accept(time, EVENT_STATISTICS_COLLECTED, EncodeSigned(elapsed, 8), Int64(elapsed), true);
      assert AllTables() == old(AllTables()) ==> events == old(events) && statistics == old(statistics);
      assert accepted[..k] == old(accepted);
      SnapshotAdded(events, startTime, lastTime, accepted, Flatten(written), snapshots, k, values);
      snapshots := snapshots[k := values];
    }

    /**
      shell_perf_log_replay: the calls made to the replay function are, in order, every accepted event at its recorded
      time plus its drift.
     */
    method Replay() returns (out: seq<Replayed>)
      requires Valid()
      ensures AllAccepted(events, accepted) && out == Expected(events, startTime, accepted)
    {
      hide EventsOk, StatisticsOk, InStep, Block.Holds, InSigned;
      EventsAreDefined(events, eventsByName);
      ReplayUndoesRecording(events, startTime, accepted);
      out := [];
      var clock := startTime;
      var i := 0;
      while i < |blocks|
        invariant 0 <= i <= |blocks|
        invariant RecordsOk(events, Flatten(written[..i]))
        invariant out == PerfLogModel.Replay(events, Flatten(written[..i]), startTime).0
        invariant clock == PerfLogModel.Replay(events, Flatten(written[..i]), startTime).1
      {
        assert written[..i + 1][..i] == written[..i];
        FlattenPrefixOk(events, written, i + 1);
        out, clock := ReplayBlock(blocks[i], events, out, clock, written[i], Flatten(written[..i]), startTime);
        i := i + 1;
      }
      assert written[..i] == written;
    }
  }

  lemma FlattenPrefixOk(events: seq<Event>, xss: seq<seq<PerfLogModel.Record>>, k: nat)
    requires RecordsOk(events, Flatten(xss)) && k <= |xss|
    ensures RecordsOk(events, Flatten(xss[..k]))
  {
    hide RecordOk;
    FlattenSplit(xss, k);
    forall i | 0 <= i < |Flatten(xss[..k])|
      ensures RecordOk(events, Flatten(xss[..k])[i])
    {
      assert Flatten(xss)[i] == Flatten(xss[..k])[i];
    }
  }

  // strlen, from `pos` on.
  method StringEnd(buffer: array<byte>, pos: nat) returns (end: nat)
    requires pos <= buffer.Length && exists k :: pos <= k < buffer.Length && buffer[k] == 0
    ensures pos <= end < buffer.Length && buffer[end] == 0 && 0 !in buffer[pos..end]
  {
    end := pos;
    while buffer[end] != 0
      invariant pos <= end < buffer.Length && 0 !in buffer[pos..end]
      invariant exists k :: end <= k < buffer.Length && buffer[k] == 0
      decreases buffer.Length - end
    {
      end := end + 1;
    }
  }

  // The inner loop of the replay, over one block.
  method ReplayBlock(block: Block, events: seq<Event>, before: seq<Replayed>, start: int,
                     ghost rs: seq<PerfLogModel.Record>, ghost done: seq<PerfLogModel.Record>, ghost startTime: int)
    returns (out: seq<Replayed>, clock: int)
    requires block.Holds(rs) && RecordsOk(events, done + rs) && SetTimeDefined(events)
    requires RecordsOk(events, done) && (before, start) == PerfLogModel.Replay(events, done, startTime)
    ensures (out, clock) == PerfLogModel.Replay(events, done + rs, startTime)
  {
    hide RecordsOk, AllPrintable, PrintAll, PerfLogModel.Replay, SetTimeDefined;
    out, clock := before, start;
    var pos := 0;
    ghost var k := 0;
    RecordsOkPrefix(events, done, rs, 0);
    assert done + rs[..0] == done;
    assert rs[0..] == rs;
    while pos < block.bytes
      invariant 0 <= k <= |rs| && pos <= block.bytes
      invariant AllPrintable(rs[k..]) && block.buffer[pos..block.bytes] == PrintAll(rs[k..])
      invariant RecordsOk(events, done + rs[..k])
      invariant (out, clock) == PerfLogModel.Replay(events, done + rs[..k], startTime)
      decreases block.bytes - pos
    {
      RecordsOkPrefix(events, done, rs, k);
      var next, delta, id, arg := ReadRecord(block, events, pos, rs[k..]);
      pos := next;
      ReplayNext(events, done, rs, k, startTime);
      if id == EVENT_SET_TIME {
        clock := arg.x;   // internal, not replayed
      } else {
        clock := clock + delta;
        out := out + [Replayed(clock, events[id].name, events[id].signature, arg)];
      }
      k := k + 1;
    }
    PrintAllEmpty(rs[k..]);
    assert rs[..k] == rs;
  }

  lemma PrintAllEmpty(rs: seq<PerfLogModel.Record>)
    requires AllPrintable(rs) && PrintAll(rs) == []
    ensures rs == []
  {
    if rs != [] {
      PrintAllHead(rs);
    }
  }

  lemma ReplayNext(events: seq<Event>, done: seq<PerfLogModel.Record>, rs: seq<PerfLogModel.Record>, k: nat,
                   startTime: int)
    requires RecordsOk(events, done + rs) && SetTimeDefined(events) && k < |rs|
    ensures RecordsOk(events, done + rs[..k]) && RecordsOk(events, done + rs[..k + 1])
    ensures rs[k..][1..] == rs[k + 1..] && rs[k..][0] == rs[k] && RecordOk(events, rs[k])
    ensures rs[k].id < |events| && (rs[k].id == EVENT_SET_TIME ==> rs[k].arg.Int64?)
    ensures
      var r := PerfLogModel.Replay(events, done + rs[..k], startTime);
      PerfLogModel.Replay(events, done + rs[..k + 1], startTime) == ReplayOne(events, rs[k], r.0, r.1)
  {
    RecordsOkPrefix(events, done, rs, k);
    assert RecordOk(events, rs[k..][0]);
    hide RecordOk, SetTimeDefined, ReplayOne;
    RecordsOkPrefix(events, done, rs, k + 1);
    assert done + rs[..k + 1] == (done + rs[..k]) + [rs[k]];
    ReplayAppend(events, done + rs[..k], rs[k], startTime);
  }

  // The argument at `at`, read by the event's signature.
  method ReadArg(block: Block, signature: string, at: nat, ghost expected: Arg, ghost rest: seq<byte>)
    returns (next: nat, arg: Arg)
    requires at <= block.bytes <= block.buffer.Length && ArgFits(expected, signature)
    requires block.buffer[at..block.bytes] == Payload(expected) + rest
    ensures arg == expected && at <= next <= block.bytes && block.buffer[next..block.bytes] == rest
  {
    hide InSigned, EncodeSigned;
    if signature == "" {
      arg, next := NoArg, at;
    } else if signature == "i" {
      var i;
      next, i := ReadSigned(block, at, 4, expected.i, rest);
      arg := Int32(i);
    } else if signature == "x" {
      var x;
      next, x := ReadSigned(block, at, 8, expected.x, rest);
      arg := Int64(x);
    } else {
      var s;
      next, s := ReadText(block, at, expected.s, rest);
      arg := Text(s);
    }
  }

  method ReadSigned(block: Block, at: nat, n: nat, ghost expected: int, ghost rest: seq<byte>)
    returns (next: nat, v: int)
    requires at <= block.bytes <= block.buffer.Length && InSigned(expected, n)
    requires block.buffer[at..block.bytes] == EncodeSigned(expected, n) + rest
    ensures v == expected && at <= next <= block.bytes && block.buffer[next..block.bytes] == rest
  {
    DecodeEncodeSigned(expected, n);
    hide *;
    ghost var all := block.buffer[at..block.bytes];
    assert |all| == n + |rest|;
    Slice(block.buffer, at, block.bytes, 0, n);
    Slice(block.buffer, at, block.bytes, n, |all|);
    v, next := DecodeSigned(block.buffer[at..at + n]), at + n;
  }

  // A NUL-terminated string.
  method ReadText(block: Block, at: nat, ghost expected: seq<byte>, ghost rest: seq<byte>)
    returns (next: nat, s: seq<byte>)
    requires at <= block.bytes <= block.buffer.Length && 0 !in expected
    requires block.buffer[at..block.bytes] == expected + [0] + rest
    ensures s == expected && at <= next <= block.bytes && block.buffer[next..block.bytes] == rest
  {
    ghost var all := block.buffer[at..block.bytes];
    ghost var n := |expected|;
    assert |all| == n + 1 + |rest|;
    assert block.buffer[at + n] == all[n] == 0;
    Slice(block.buffer, at, block.bytes, 0, n);
    Slice(block.buffer, at, block.bytes, n + 1, |all|);
    assert block.buffer[at..at + n] == expected;
    var end := StringEnd(block.buffer, at);
    SameEnd(block.buffer, at, end, at + n);
    s, next := block.buffer[at..end], end + 1;
  }

  // A string ends at its first NUL.
  lemma SameEnd(a: array<byte>, at: nat, end: nat, n: nat)
    requires at <= end < a.Length && at <= n < a.Length && a[end] == 0 && a[n] == 0
    requires 0 !in a[at..end] && 0 !in a[at..n]
    ensures end == n
  {
    assert forall i :: at <= i < end ==> a[i] in a[at..end];
    assert forall i :: at <= i < n ==> a[i] in a[at..n];
  }

  lemma Slice(a: array<byte>, lo: nat, hi: nat, i: nat, j: nat)
    requires lo <= hi <= a.Length && i <= j <= hi - lo
    ensures a[lo..hi][i..j] == a[lo + i..lo + j]
  {
    assert forall k :: 0 <= k < j - i ==> a[lo..hi][i..j][k] == a[lo + i..lo + j][k];
  }

  // One record at `pos`: its fields, and where the next one starts.
  method ReadRecord(block: Block, events: seq<Event>, pos: nat, ghost rs: seq<PerfLogModel.Record>)
    returns (next: nat, delta: nat, id: nat, arg: Arg)
    requires pos < block.bytes <= block.buffer.Length && RecordsOk(events, rs) && SetTimeDefined(events)
    requires AllPrintable(rs) && block.buffer[pos..block.bytes] == PrintAll(rs)
    ensures rs != [] && rs[0] == PerfLogModel.Record(delta, id, arg)
    ensures pos < next <= block.bytes && AllPrintable(rs[1..])
    ensures block.buffer[next..block.bytes] == PrintAll(rs[1..])
  {
    ghost var all := block.buffer[pos..block.bytes];
    PrintAllNonempty(rs);
    PrintAllHead(rs);
    ghost var r, rest := rs[0], PrintAll(rs[1..]);
    assert RecordOk(events, r);
    assert r.id < |events| && ArgFits(r.arg, events[r.id].signature);
    ParsePrint(r, rest);
    hide Print, PrintAll, Payload, Decode, Printable, ArgFits, RecordOk, RecordsOk, AllPrintable, SetTimeDefined;
    assert |all| >= 6;
    Slice(block.buffer, pos, block.bytes, 0, 4);
    Slice(block.buffer, pos, block.bytes, 4, 6);
    Slice(block.buffer, pos, block.bytes, 6, |all|);
    delta := Decode(block.buffer[pos..pos + 4]);
    id := Decode(block.buffer[pos + 4..pos + 6]);
    // perf.setTime carries a 64-bit integer, as its definition says
    next, arg := ReadArg(block, events[id].signature, pos + 6, r.arg, rest);
  }

  lemma PrintAllNonempty(rs: seq<PerfLogModel.Record>)
    requires AllPrintable(rs) && |PrintAll(rs)| > 0
    ensures rs != []
  {
  }

  lemma RecordsOkPrefix(events: seq<Event>, done: seq<PerfLogModel.Record>, rs: seq<PerfLogModel.Record>, k: nat)
    requires RecordsOk(events, done + rs) && k <= |rs|
    ensures RecordsOk(events, done + rs[..k]) && RecordsOk(events, rs[k..])
  {
    hide RecordOk;
    forall i | 0 <= i < |done + rs[..k]|
      ensures RecordOk(events, (done + rs[..k])[i])
    {
      assert (done + rs[..k])[i] == (done + rs)[i];
    }
    forall i | 0 <= i < |rs[k..]|
      ensures RecordOk(events, rs[k..][i])
    {
      assert rs[k..][i] == (done + rs)[|done| + k + i];
    }
  }

  ghost predicate ActionFits(action: CallbackAction) {
    match action
    case Update(_, signature, value) => ArgFits(ValueArg(signature, value), signature)
    case Record(time, _, arg) => InSigned(time, 8) && ArgFits(arg, SignatureOf(arg))
  }

  function KnownEvent(events: seq<Event>, eventsByName: map<string, nat>, name: string, signature: string)
      : Option<nat>
  {
    if name in eventsByName && eventsByName[name] < |events| && events[eventsByName[name]].signature == signature
    then Some(eventsByName[name]) else None
  }

  // The event a callback's action records: none if it is unknown, or too long, or the log is off.
  ghost function CallbackEvent(events: seq<Event>, eventsByName: map<string, nat>, enabled: bool,
                               action: CallbackAction): seq<Accepted>
    requires ActionFits(action)
  {
    match action
    case Update(_, _, _) => []
    case Record(time, name, arg) =>
      var id := KnownEvent(events, eventsByName, name, SignatureOf(arg));
      if id.Some? && enabled && 6 + |Payload(arg)| <= BLOCK_SIZE then [Accepted(time, id.value, arg)] else []
  }

  // The events among these.
  ghost function IdsOf(acc: seq<Accepted>): set<nat> {
    set k | 0 <= k < |acc| :: acc[k].id
  }

  lemma IdsOfBoth(acc: seq<Accepted>, more: seq<Accepted>)
    ensures IdsOf(acc + more) == IdsOf(acc) + IdsOf(more)
  {
    forall id | id in IdsOf(acc) + IdsOf(more)
      ensures id in IdsOf(acc + more)
    {
      var k :| 0 <= k < |acc + more| && (acc + more)[k].id == id by {
        if id in IdsOf(acc) {
          var k :| 0 <= k < |acc| && acc[k].id == id;
          assert (acc + more)[k].id == id;
        } else {
          var k :| 0 <= k < |more| && more[k].id == id;
          assert (acc + more)[|acc| + k].id == id;
        }
      }
    }
  }

  ghost function CallbackEvents(events: seq<Event>, eventsByName: map<string, nat>, enabled: bool,
                                actions: seq<CallbackAction>): seq<Accepted>
    requires forall k :: 0 <= k < |actions| ==> ActionFits(actions[k])
  {
    if actions == [] then []
    else CallbackEvents(events, eventsByName, enabled, actions[..|actions| - 1])
         + CallbackEvent(events, eventsByName, enabled, actions[|actions| - 1])
  }

  // The statistic a callback's action gives a value, if it is known with this signature.
  ghost function UpdatedBy(events: seq<Event>, byName: map<string, nat>, xs: seq<Statistic>, action: CallbackAction)
      : seq<Statistic>
  {
    match action
    case Record(_, _, _) => xs
    case Update(name, signature, value) =>
      if name in byName && byName[name] < |xs| && xs[byName[name]].id < |events|
         && events[xs[byName[name]].id].signature == signature
      then xs[byName[name] := xs[byName[name]].(current := value, initialized := true)] else xs
  }

  ghost function Updated(events: seq<Event>, byName: map<string, nat>, xs: seq<Statistic>,
                         actions: seq<CallbackAction>): seq<Statistic>
  {
    if actions == [] then xs
    else UpdatedBy(events, byName, Updated(events, byName, xs, actions[..|actions| - 1]), actions[|actions| - 1])
  }

  lemma StatisticKnown(events: seq<Event>, statistics: seq<Statistic>, byName: map<string, nat>, name: string)
    requires StatisticsOk(events, statistics, byName)
    ensures name in byName ==> byName[name] < |statistics| && statistics[byName[name]].id < |events|
  {
    if name in byName {
      assert StatisticOk(events, statistics[byName[name]]);
    }
  }

  lemma ToldAreStatistics(events: seq<Event>, xs: seq<Statistic>, statistics: seq<Statistic>, byName: map<string, nat>)
    requires StatisticsOk(events, statistics, byName) && statistics == AllTold(xs)
    ensures forall i :: 0 <= i < |xs| ==> xs[i].id > EVENT_STATISTICS_COLLECTED
  {
    forall i | 0 <= i < |xs|
      ensures xs[i].id > EVENT_STATISTICS_COLLECTED
    {
      assert StatisticOk(events, statistics[i]) && statistics[i] == Told(xs[i]);
    }
  }

  lemma {:induction false} ChangedAtTime(events: seq<Event>, xs: seq<Statistic>, time: int)
    requires forall i :: 0 <= i < |xs| ==> xs[i].id > EVENT_STATISTICS_COLLECTED
    ensures NoUserSetTime(Changed(events, xs, time))
    ensures forall k :: 0 <= k < |Changed(events, xs, time)| ==> Changed(events, xs, time)[k].time == time
  {
    if xs != [] {
      ChangedAtTime(events, xs[..|xs| - 1], time);
    }
  }

  lemma CollectedLate(events: seq<Event>, start: int, before: seq<Accepted>, called: seq<Accepted>,
                      changed: seq<Accepted>, mark: Accepted, acc: seq<Accepted>)
    requires acc == before + called + changed + [mark] && AllAccepted(events, acc)
    requires NoUserSetTime(before) && NoUserSetTime(called) && NoUserSetTime(changed) && mark.id != EVENT_SET_TIME
    requires forall k :: 0 <= k < |called| ==> called[k].time >= mark.time
    requires forall k :: 0 <= k < |changed| ==> changed[k].time == mark.time
    requires Drift(start, before) == 0 && LastTime(start, before) <= mark.time
    ensures
      var replayed := Expected(events, start, acc);
      && replayed != [] && replayed[|replayed| - 1].time >= mark.time
      && (replayed[|replayed| - 1].time > mark.time <==>
            exists k :: 0 <= k < |called| && called[k].time > mark.time)
  {
    var later := called + changed + [mark];
    assert acc == before + later && acc[|acc| - 1] == mark;
    LaterThanMark(before, called, changed, mark);
    NoneSetTime(before, called, changed, mark);
    hide Drift, LastTime, AcceptedOk, AllAccepted, NoUserSetTime, Expected;
    DriftIffLater(start, before, later, mark.time);
    ExpectedLast(events, start, acc);
  }

  lemma NoneSetTime(before: seq<Accepted>, called: seq<Accepted>, changed: seq<Accepted>, mark: Accepted)
    requires NoUserSetTime(before) && NoUserSetTime(called) && NoUserSetTime(changed) && mark.id != EVENT_SET_TIME
    ensures NoUserSetTime(before + called + changed + [mark])
  {
  }

  lemma LaterThanMark(before: seq<Accepted>, called: seq<Accepted>, changed: seq<Accepted>, mark: Accepted)
    requires NoUserSetTime(before) && NoUserSetTime(called) && NoUserSetTime(changed) && mark.id != EVENT_SET_TIME
    requires forall k :: 0 <= k < |called| ==> called[k].time >= mark.time
    requires forall k :: 0 <= k < |changed| ==> changed[k].time == mark.time
    ensures
      var later := called + changed + [mark];
      && NoUserSetTime(before + later) && later[|later| - 1] == mark
      && (forall k :: 0 <= k < |later| ==> later[k].time >= mark.time)
      && ((exists k :: 0 <= k < |later| && later[k].time > mark.time) <==>
          exists k :: 0 <= k < |called| && called[k].time > mark.time)
  {
    var later := called + changed + [mark];
    assert before + later == before + called + changed + [mark];
    NoneSetTime(before, called, changed, mark);
    hide NoUserSetTime;
    forall k | 0 <= k < |later|
      ensures later[k].time >= mark.time
      ensures later[k].time > mark.time ==> k < |called| && later[k] == called[k]
    {
    }
    assert forall k :: 0 <= k < |called| ==> later[k] == called[k];
  }

  lemma AreAccepted(events: seq<Event>, start: int, last: int, acc: seq<Accepted>, records: seq<PerfLogModel.Record>,
                    snapshots: map<nat, map<nat, Arg>>)
    requires Consistent(events, start, last, acc, records, snapshots)
    ensures AllAccepted(events, acc)
  {
  }

  // What the collected statistics are worth, by event.
  ghost function Values(events: seq<Event>, xs: seq<Statistic>, foreign: set<nat>): map<nat, Arg> {
    if xs == [] then map[]
    else
      var x := xs[|xs| - 1];
      var before := Values(events, xs[..|xs| - 1], foreign);
      if x.initialized && x.id !in foreign && x.id < |events|
      then before[x.id := ValueArg(events[x.id].signature, x.current)] else before
  }

  // `values` has the current value of every initialised statistic that only collections record.
  ghost predicate AllOnRecord(events: seq<Event>, xs: seq<Statistic>, foreign: set<nat>, values: map<nat, Arg>) {
    forall i {:trigger xs[i]} :: 0 <= i < |xs| && xs[i].initialized && xs[i].id !in foreign && xs[i].id < |events| ==>
      xs[i].id in values && values[xs[i].id] == ValueArg(events[xs[i].id].signature, xs[i].current)
  }

  lemma {:induction false} ValuesOf(events: seq<Event>, xs: seq<Statistic>, foreign: set<nat>)
    requires forall i, j {:trigger xs[i], xs[j]} :: 0 <= i < j < |xs| ==> xs[i].id != xs[j].id
    ensures AllOnRecord(events, xs, foreign, Values(events, xs, foreign))
    ensures forall id :: id in Values(events, xs, foreign) ==>
              exists i :: 0 <= i < |xs| && xs[i].id == id && xs[i].initialized && id !in foreign && id < |events|
                          && Values(events, xs, foreign)[id] == ValueArg(events[id].signature, xs[i].current)
  {
    if xs != [] {
      var before := xs[..|xs| - 1];
      ValuesOf(events, before, foreign);
      var x := xs[|xs| - 1];
      forall i | 0 <= i < |before|
        ensures before[i] == xs[i] && xs[i].id != x.id
      {
      }
    }
  }

  lemma ValuesOnRecord(events: seq<Event>, xs: seq<Statistic>, byName: map<string, nat>, foreign: set<nat>,
                       acc: seq<Accepted>)
    requires StatisticsOk(events, xs, byName)
    requires forall i :: 0 <= i < |xs| ==> InStep(events, acc, foreign, xs[i]) && xs[i] == Told(xs[i])
    ensures AllOnRecord(events, xs, foreign, Values(events, xs, foreign))
    ensures forall id :: id in Values(events, xs, foreign) ==>
              Latest(acc, id) == Some(Values(events, xs, foreign)[id])
  {
    ValuesOf(events, xs, foreign);
  }

  lemma SnapshotsBelow(events: seq<Event>, start: int, last: int, acc: seq<Accepted>,
                       records: seq<PerfLogModel.Record>, snapshots: map<nat, map<nat, Arg>>)
    requires Consistent(events, start, last, acc, records, snapshots)
    ensures forall k :: k in snapshots ==> k < |acc|
  {
    forall k | k in snapshots
      ensures k < |acc|
    {
      assert SnapshotOk(acc, k, snapshots[k]);
    }
  }

  lemma SnapshotAdded(events: seq<Event>, start: int, last: int, acc: seq<Accepted>,
                      records: seq<PerfLogModel.Record>, snapshots: map<nat, map<nat, Arg>>, k: nat,
                      values: map<nat, Arg>)
    requires Consistent(events, start, last, acc, records, snapshots)
    requires SnapshotOk(acc, k, values)
    ensures Consistent(events, start, last, acc, records, snapshots[k := values])
  {
  }

  // What one collection leaves a statistic as.
  function Told(x: Statistic): Statistic {
    if x.initialized then x.(last := x.current, recorded := true) else x
  }

  function AllTold(xs: seq<Statistic>): (r: seq<Statistic>)
    ensures |r| == |xs| && forall i :: 0 <= i < |xs| ==> r[i] == Told(xs[i])
  {
    seq(|xs|, i requires 0 <= i < |xs| => Told(xs[i]))
  }

  // The event a collection at `time` records for a statistic: only if it is not recorded yet, or changed since.
  ghost function ChangedOne(events: seq<Event>, x: Statistic, time: int): seq<Accepted> {
    if x.initialized && (!x.recorded || x.current != x.last) && x.id < |events|
    then [Accepted(time, x.id, ValueArg(events[x.id].signature, x.current))] else []
  }

  // The log's latest value of the statistic is its current one.
  ghost predicate OnRecord(events: seq<Event>, acc: seq<Accepted>, x: Statistic) {
    x.id < |events| && Latest(acc, x.id) == Some(ValueArg(events[x.id].signature, x.current))
  }

  /**
    What a collection leaves on record: a statistic exactly if it has a value not recorded yet, or was on record before.
    A caller that records a statistic's event itself is not noticed.
   */
  ghost predicate CollectedExactly(events: seq<Event>, before: seq<Accepted>, xs: seq<Statistic>,
                                   after: seq<Accepted>)
  {
    forall i {:trigger xs[i]} :: 0 <= i < |xs| && xs[i].initialized ==>
      (OnRecord(events, after, xs[i]) <==>
       !xs[i].recorded || xs[i].current != xs[i].last || OnRecord(events, before, xs[i]))
  }

  lemma LatestMore(acc: seq<Accepted>, more: seq<Accepted>, id: nat)
    requires |more| <= 1
    ensures Latest(acc + more, id) == if more != [] && more[0].id == id then Some(more[0].arg) else Latest(acc, id)
  {
    var all := acc + more;
    assert if more == [] then all == acc else all[..|all| - 1] == acc;
  }

  lemma ChangedMore(events: seq<Event>, acc: seq<Accepted>, xs: seq<Statistic>, time: int)
    requires xs != []
    ensures
      var n := |xs| - 1;
      acc + Changed(events, xs, time) == acc + Changed(events, xs[..n], time) + ChangedOne(events, xs[n], time)
  {
  }

  lemma {:induction false} LatestChanged(events: seq<Event>, acc: seq<Accepted>, xs: seq<Statistic>, time: int,
                                         id: nat)
    requires forall i :: 0 <= i < |xs| ==> xs[i].id != id || ChangedOne(events, xs[i], time) == []
    ensures Latest(acc + Changed(events, xs, time), id) == Latest(acc, id)
  {
    hide Latest;
    if xs == [] {
      assert acc + [] == acc;
    } else {
      var n := |xs| - 1;
      LatestChanged(events, acc, xs[..n], time, id);
      ChangedMore(events, acc, xs, time);
      LatestMore(acc + Changed(events, xs[..n], time), ChangedOne(events, xs[n], time), id);
    }
  }

  lemma {:induction false} LatestOfChanged(events: seq<Event>, acc: seq<Accepted>, xs: seq<Statistic>, time: int,
                                           i: nat)
    requires i < |xs| && ChangedOne(events, xs[i], time) != []
    requires forall j :: 0 <= j < |xs| && j != i ==> xs[j].id != xs[i].id
    ensures OnRecord(events, acc + Changed(events, xs, time), xs[i])
  {
    hide Latest;
    var n := |xs| - 1;
    ChangedMore(events, acc, xs, time);
    LatestMore(acc + Changed(events, xs[..n], time), ChangedOne(events, xs[n], time), xs[i].id);
    if i < n {
      LatestOfChanged(events, acc, xs[..n], time, i);
    }
  }

  lemma CollectedIs(events: seq<Event>, acc: seq<Accepted>, xs: seq<Statistic>, time: int)
    requires forall i :: 0 <= i < |xs| ==> xs[i].id < |events|
    requires forall i, j {:trigger xs[i], xs[j]} :: 0 <= i < j < |xs| ==> xs[i].id != xs[j].id
    ensures CollectedExactly(events, acc, xs, acc + Changed(events, xs, time))
  {
    forall i | 0 <= i < |xs| && xs[i].initialized
      ensures OnRecord(events, acc + Changed(events, xs, time), xs[i]) <==>
              !xs[i].recorded || xs[i].current != xs[i].last || OnRecord(events, acc, xs[i])
    {
      if ChangedOne(events, xs[i], time) != [] {
        LatestOfChanged(events, acc, xs, time, i);
      } else {
        LatestChanged(events, acc, xs, time, xs[i].id);
      }
    }
  }

  ghost function Changed(events: seq<Event>, xs: seq<Statistic>, time: int): seq<Accepted> {
    if xs == [] then [] else Changed(events, xs[..|xs| - 1], time) + ChangedOne(events, xs[|xs| - 1], time)
  }

  lemma ToldTwice(xs: seq<Statistic>)
    ensures forall i :: 0 <= i < |xs| ==> AllTold(xs)[i] == Told(AllTold(xs)[i])
  {
  }

  lemma ToldNext(xs: seq<Statistic>, i: nat)
    requires i < |xs|
    ensures AllTold(xs[..i + 1]) + xs[i + 1..] == (AllTold(xs[..i]) + xs[i..])[i := Told(xs[i])]
  {
  }

  lemma ToldFits(events: seq<Event>, statistics: seq<Statistic>, statisticsByName: map<string, nat>, i: nat)
    requires StatisticsOk(events, statistics, statisticsByName) && i < |statistics|
    ensures StatisticsOk(events, statistics[i := Told(statistics[i])], statisticsByName)
    ensures StatisticOk(events, statistics[i]) && statistics[i].id < |events|
    ensures forall j {:trigger statistics[j]} :: 0 <= j < |statistics| && j != i ==>
              statistics[j].id != statistics[i].id
  {
    var statistics' := statistics[i := Told(statistics[i])];
    forall j | 0 <= j < |statistics|
      ensures StatisticOk(events, statistics'[j]) && statistics'[j].id == statistics[j].id
    {
      assert StatisticOk(events, statistics[j]);
    }
  }

  lemma StatisticFits(events: seq<Event>, x: Statistic, time: int)
    requires StatisticOk(events, x) && |events| <= 0x1_0000 && InSigned(time, 8)
    ensures
      var arg := ValueArg(events[x.id].signature, x.current);
      && AcceptedOk(events, Accepted(time, x.id, arg)) && 6 + |Payload(arg)| <= BLOCK_SIZE
  {
  }

  lemma StatisticIds(events: seq<Event>, statistics: seq<Statistic>, statisticsByName: map<string, nat>)
    requires StatisticsOk(events, statistics, statisticsByName)
    ensures forall i {:trigger statistics[i]} :: 0 <= i < |statistics| ==>
              EVENT_STATISTICS_COLLECTED < statistics[i].id < |events|
  {
    forall i | 0 <= i < |statistics|
      ensures EVENT_STATISTICS_COLLECTED < statistics[i].id < |events|
    {
      assert StatisticOk(events, statistics[i]);
    }
  }

  lemma NewStatistic(events: seq<Event>, eventsByName: map<string, nat>, statistics: seq<Statistic>,
                     statisticsByName: map<string, nat>, name: string, x: Statistic, acc: seq<Accepted>,
                     foreign: set<nat>)
    requires EventsOk(events, eventsByName) && name in eventsByName
    requires x == Statistic(|events| - 1, 0, 0, false, false) && x.id == eventsByName[name] >= 2
    requires events[x.id].signature == "i" || events[x.id].signature == "x"
    requires forall i {:trigger statistics[i]} :: 0 <= i < |statistics| ==> statistics[i].id < x.id
    requires StatisticsOk(events, statistics, statisticsByName)
    ensures StatisticsOk(events, statistics + [x], statisticsByName[name := |statistics|])
    ensures InStep(events, acc, foreign, x)
  {
    Widths();
    assert StatisticOk(events, x);
    assert events[x.id].name == name;
    forall i | 0 <= i < |statistics|
      ensures events[statistics[i].id].name != name
    {
      assert StatisticOk(events, statistics[i]);
      assert eventsByName[events[statistics[i].id].name] == statistics[i].id;
    }
  }

  function SignatureOf(arg: Arg): string {
    match arg
    case NoArg => ""
    case Int32(_) => "i"
    case Int64(_) => "x"
    case Text(_) => "s"
  }

  lemma InitialTables(now: int)
    requires InSigned(now, 8)
    ensures EventsOk([Event("perf.setTime", "x"), Event("perf.statisticsCollected", "x")],
                     map["perf.setTime" := 0, "perf.statisticsCollected" := 1])
    ensures StatisticsOk([Event("perf.setTime", "x"), Event("perf.statisticsCollected", "x")], [], map[])
    ensures Consistent([Event("perf.setTime", "x"), Event("perf.statisticsCollected", "x")], now, now, [],
                       Flatten([]), map[])
  {
    hide InSigned, EventsOk;
    assert |"perf.setTime"| != |"perf.statisticsCollected"|;
    TwoEvents("perf.setTime", "perf.statisticsCollected");
  }

  lemma TwoEvents(first: string, second: string)
    requires first != second && '"' !in first && '"' !in second
    requires SetTimeDefined([Event(first, "x"), Event(second, "x")])
    ensures EventsOk([Event(first, "x"), Event(second, "x")], map[first := 0, second := 1])
  {
    hide SetTimeDefined;
  }

  // One more event in the table: what was said about the others still holds.
  lemma ConsistentDefined(events: seq<Event>, events': seq<Event>, start: int, last: int, acc: seq<Accepted>,
                          records: seq<PerfLogModel.Record>, snapshots: map<nat, map<nat, Arg>>)
    requires Consistent(events, start, last, acc, records, snapshots) && events <= events' && |events'| <= 0x1_0000
    ensures Consistent(events', start, last, acc, records, snapshots)
  {
    forall k | 0 <= k < |acc|
      ensures AcceptedOk(events', acc[k])
    {
      assert AcceptedOk(events, acc[k]);
    }
  }

  lemma StatisticsDefined(events: seq<Event>, events': seq<Event>, statistics: seq<Statistic>,
                          statisticsByName: map<string, nat>)
    requires StatisticsOk(events, statistics, statisticsByName) && events <= events'
    ensures StatisticsOk(events', statistics, statisticsByName)
  {
    forall i | 0 <= i < |statistics|
      ensures StatisticOk(events', statistics[i]) && statistics[i].id < |events|
    {
      assert StatisticOk(events, statistics[i]);
    }
  }

  lemma InStepDefined(events: seq<Event>, events': seq<Event>, acc: seq<Accepted>, foreign: set<nat>,
                      statistics: seq<Statistic>, statisticsByName: map<string, nat>, i: nat)
    requires StatisticsOk(events, statistics, statisticsByName) && events <= events' && i < |statistics|
    requires InStep(events, acc, foreign, statistics[i])
    ensures InStep(events', acc, foreign, statistics[i])
  {
    assert StatisticOk(events, statistics[i]);
  }

  lemma EventsAreDefined(events: seq<Event>, eventsByName: map<string, nat>)
    requires EventsOk(events, eventsByName)
    ensures SetTimeDefined(events) && |events| <= 0x1_0000
  {
  }

  lemma FlattenGrow<T>(xss: seq<seq<T>>, n: nat, x: T)
    requires n + 1 == |xss|
    ensures Flatten(xss[n := xss[n] + [x]]) == Flatten(xss) + [x]
  {
    assert xss[n := xss[n] + [x]][..n] == xss[..n];
  }

  // One run in which collecting makes the time go back: a callback records an event at 6, the collection is stamped 5.
  method LateCollection() returns (log: Log)
    ensures fresh(log) && log.Valid() && AllAccepted(log.events, log.accepted)
    ensures
      var replayed := Expected(log.events, log.startTime, log.accepted);
      replayed != [] && replayed[|replayed| - 1].time > 5
  {
    SmallNumbers();
    hide Log.Sound, Log.Stored, InStep, ActionFits, InSigned, CallbackEvents, Expected, AcceptedOk;
    log := new Log(0);
    log.SetEnabled(true);
    var id := log.DefineEvent("e", "");
    var actions := [CallbackAction.Record(6, "e", NoArg)];
    assert '"' !in "e";
    OneCallback(log.events, log.eventsByName, actions);
    ghost var called := CallbackEvents(log.events, log.eventsByName, true, actions);
    log.CollectBackward(5, 7, actions);
    assert called[0].time > 5;
  }

  // One run in which a caller's own record stands: a statistic at 5 is collected, recorded as 7, and collected again.
  method OwnRecordStands() returns (log: Log)
    ensures fresh(log) && log.Valid() && |log.accepted| > 0
    ensures |log.statistics| == 1 && log.statistics[0].initialized && log.statistics[0].current == 5
    ensures !OnRecord(log.events, log.accepted[..|log.accepted| - 1], log.statistics[0])
  {
    log := CollectedOnce();
    SmallNumbers();
    hide Log.Sound, Log.Stored, InStep, ActionFits, InSigned, AcceptedOk, OnRecord, Latest, ArgFits, Payload, EventsOk;
    hide CallbackEvents, Updated, AllOnRecord, Changed, CollectedExactly, IdsOf, AllTold;
    ghost var xs, acc := log.statistics, log.accepted;
    log.EventsThere();
    assert log.LookupEvent("s", SignatureOf(Int32(7))) == Some(2);
    log.RecordNamed(6, "s", Int32(7));
    OwnRecord(log.events, acc, xs[0], 6);
    NoCallbacks(log.events, log.eventsByName, log.statisticsByName, xs);
    ghost var before := log.accepted;
    assert before + [] == before;
    log.Collect(6, 8, []);
    StillNot(log.events, before, xs, log.accepted[..|log.accepted| - 1], log.statistics);
  }

  method CollectedOnce() returns (log: Log)
    ensures fresh(log) && log.Valid() && log.enabled && fresh(log.Repr)
    ensures log.statistics == [Statistic(2, 5, 5, true, true)] && |log.events| == 3 && log.events[2] == Event("s", "i")
    ensures "s" in log.eventsByName && log.eventsByName["s"] == 2
  {
    SmallNumbers();
    hide Log.Sound, Log.Stored, InStep, ActionFits, InSigned, Expected, AcceptedOk, OnRecord, Latest, ArgFits, Payload;
    hide CallbackEvents, Updated, AllOnRecord, Changed, CollectedExactly, IdsOf;
    log := new Log(0);
    log.SetEnabled(true);
    assert '"' !in "s";
    var ok := log.DefineStatistic("s", "i");
    log.UpdateStatistic("s", "i", 5);
    ghost var xs := log.statistics;
    NoCallbacks(log.events, log.eventsByName, log.statisticsByName, xs);
    log.Collect(5, 7, []);
    assert log.statistics[0] == Told(xs[0]);
  }

  lemma NoCallbacks(events: seq<Event>, eventsByName: map<string, nat>, byName: map<string, nat>, xs: seq<Statistic>)
    ensures CallbackEvents(events, eventsByName, true, []) == [] && Updated(events, byName, xs, []) == xs
  {
  }

  lemma StillNot(events: seq<Event>, before: seq<Accepted>, xs: seq<Statistic>, after: seq<Accepted>,
                 xs': seq<Statistic>)
    requires CollectedExactly(events, before, xs, after) && xs' == AllTold(xs)
    requires |xs| == 1 && xs[0].initialized && xs[0].recorded && xs[0].current == xs[0].last
    requires !OnRecord(events, before, xs[0])
    ensures |xs'| == 1 && xs'[0] == xs[0] && !OnRecord(events, after, xs[0])
  {
  }

  lemma OwnRecord(events: seq<Event>, acc: seq<Accepted>, x: Statistic, time: int)
    requires x.id < |events| && events[x.id].signature == "i" && x.current == 5
    ensures !OnRecord(events, acc + [Accepted(time, x.id, Int32(7))], x)
  {
    LatestMore(acc, [Accepted(time, x.id, Int32(7))], x.id);
  }

  lemma SmallNumbers()
    ensures InSigned(0, 8) && InSigned(2, 8) && InSigned(5, 8) && InSigned(6, 8)
    ensures ArgFits(Int32(5), "i") && ArgFits(Int32(7), "i") && 6 + |Payload(Int32(7))| <= BLOCK_SIZE
  {
  }

  lemma OneCallback(events: seq<Event>, eventsByName: map<string, nat>, actions: seq<CallbackAction>)
    requires actions == [CallbackAction.Record(6, "e", NoArg)] && InSigned(6, 8)
    requires "e" in eventsByName && eventsByName["e"] == 2 && |events| == 3 && events[2].signature == ""
    ensures ActionFits(actions[0]) && CallbackEvents(events, eventsByName, true, actions) == [Accepted(6, 2, NoArg)]
  {
    assert actions[..0] == [];
  }
}
