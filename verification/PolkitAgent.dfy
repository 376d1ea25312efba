/**
  src/shell-polkit-authentication-agent.c: authentication requests, one dialog at a time, in order of arrival. A signal
  handler may complete the current request while it is being told of it, which initiates the next one inside.
 */
module PolkitAgent {
  import opened Wrappers
  import opened Sequences

  // What a handler of the initiate or the cancel signal does before it returns.
  datatype Action = Complete(dismissed: bool) | Unregister

  datatype Completion = Completion(request: nat, dismissed: bool)

  function Times(completions: seq<Completion>, r: nat): nat {
    if completions == [] then 0
    else Times(completions[..|completions| - 1], r) + if completions[|completions| - 1].request == r then 1 else 0
  }

  lemma TimesAppend(completions: seq<Completion>, c: Completion, r: nat)
    ensures Times(completions + [c], r) == Times(completions, r) + if c.request == r then 1 else 0
  {
    assert (completions + [c])[..|completions|] == completions;
  }

  lemma {:induction false} RemoveIncreasing(xs: seq<nat>, x: nat)
    requires Increasing(xs)
    ensures Increasing(RemoveFirst(xs, x))
    ensures forall y :: y in RemoveFirst(xs, x) <==> y in xs && y != x
  {
    RemoveFirstDistinct(xs, x);
    if xs != [] && xs[0] != x {
      var rest := RemoveFirst(xs[1..], x);
      RemoveIncreasing(xs[1..], x);
      forall j | 0 <= j < |rest|
        ensures xs[0] < rest[j]
      {
        assert rest[j] in xs[1..];
      }
    }
  }

  // Not completed: r is current or waits.
  predicate Live(scheduled: seq<nat>, current: Option<nat>, r: nat) {
    current == Some(r) || r in scheduled
  }

  /**
    Requests are numbered in order of arrival. Those that wait do so in that order, later than all that were initiated;
    the current one is the last initiated and does not wait; every other is completed exactly once, and was initiated
    unless it was cancelled or the agent unregistered while it waited.
   */
  ghost predicate Orderly(scheduled: seq<nat>, current: Option<nat>, arrived: nat, initiated: seq<nat>,
                          completions: seq<Completion>, skipped: set<nat>, givenUp: set<nat>)
  {
    && Increasing(scheduled) && Increasing(initiated)
    && (forall r :: r in scheduled ==> r < arrived)
    && (forall r :: r in initiated ==> r < arrived)
    && (forall r, q :: r in initiated && q in scheduled ==> r < q)
    && (current.Some? ==> initiated != [] && current.value == initiated[|initiated| - 1] && current.value in initiated)
    && (forall r: nat :: Times(completions, r) == if r < arrived && !Live(scheduled, current, r) then 1 else 0)
    && (forall r: nat :: r < arrived ==> r in scheduled || r in initiated || r in skipped)
    && (forall r :: r in skipped ==> r < arrived && r !in initiated && r !in scheduled && r in givenUp)
  }

  class Agent {
    // What the initiate handler does when told of a request.
    const onInitiate: nat -> seq<Action>
    var scheduled: seq<nat>
    var current: Option<nat>
    var arrived: nat
    // The requests for which a cancellation has added an idle source.
    var idles: set<nat>
    ghost var initiated: seq<nat>
    ghost var completions: seq<Completion>
    // Completed without having been initiated.
    ghost var skipped: set<nat>
    // Cancelled, or waiting when the agent unregistered.
    ghost var givenUp: set<nat>

    constructor (onInitiate: nat -> seq<Action>)
      ensures Valid() && arrived == 0 && this.onInitiate == onInitiate && givenUp == {} && initiated == []
    {
      this.onInitiate := onInitiate;
      scheduled, current, arrived, idles := [], None, 0, {};
      initiated, completions, skipped, givenUp := [], [], {}, {};
    }

    ghost predicate InOrder()
      reads this
    {
      Orderly(scheduled, current, arrived, initiated, completions, skipped, givenUp) && idles <= givenUp
    }

    // At rest, and whenever a handler runs, nothing waits while no request is current.
    ghost predicate Valid()
      reads this
    {
      InOrder() && (current == None ==> scheduled == [])
    }

    // No handler of the initiate signal unregisters the agent.
    ghost predicate Stays() {
      forall r {:trigger onInitiate(r)} :: Unregister !in onInitiate(r)
    }

    // Whatever has been given up since waited then, and was dismissed without being initiated.
    ghost predicate OnlyDropped(givenUp: set<nat>, scheduled: seq<nat>)
      reads this
    {
      forall r :: r in this.givenUp && r !in givenUp ==>
        r in scheduled && r in skipped && Completion(r, true) in completions
    }

    function Lives(): nat
      reads this
    {
      |scheduled| + if current.Some? then 1 else 0
    }

    // At most one request is current, and it is neither waiting nor completed.
    lemma OneCurrent(r: nat)
      requires Valid() && current == Some(r)
      ensures r !in scheduled && Times(completions, r) == 0
    {
    }

    /**
      Every request is completed at most once, and exactly once when it is neither current nor waiting; and one that
      was not given up is initiated before all later ones. With none current every request has been dealt with.
     */
    lemma InArrivalOrder(r: nat, q: nat)
      requires Valid() && r < arrived
      ensures Times(completions, r) == if Live(scheduled, current, r) then 0 else 1
      ensures r < q && r !in givenUp && q in initiated ==> Before(initiated, r, q)
      ensures r in skipped ==> r !in initiated
      ensures current == None ==> Times(completions, r) == 1 && (r in initiated || r in givenUp)
    {
      if r < q && r !in givenUp && q in initiated {
        assert r in initiated;
        var i :| 0 <= i < |initiated| && initiated[i] == r;
        var j :| 0 <= j < |initiated| && initiated[j] == q;
      }
    }

    lemma InitiatedArrived(q: nat)
      requires Valid() && q in initiated
      ensures q < arrived
    {
    }

    // What a handler's first call has done, given the current request, those waiting and those completed before it.
    ghost predicate Began(actions: seq<Action>, current: Option<nat>, scheduled: seq<nat>,
                          completions: seq<Completion>)
      reads this
    {
      if actions == [] then
        this.current == current && this.scheduled == scheduled && this.completions == completions
      else match actions[0]
        case Complete(dismissed) =>
          current.Some? ==> completions + [Completion(current.value, dismissed)] <= this.completions
        case Unregister =>
          completions + Dismissals(scheduled) + (if current.Some? then [Completion(current.value, true)] else [])
          <= this.completions
    }

    // maybe_process_next_request
    method MaybeProcessNextRequest()
      requires InOrder()
      modifies this
      ensures Valid() && old(initiated) <= initiated && Lives() <= old(Lives())
      ensures arrived == old(arrived) && idles == old(idles) && old(completions) <= completions
      ensures old(givenUp) <= givenUp && old(skipped) <= skipped && OnlyDropped(old(givenUp), old(scheduled))
      ensures |old(scheduled)| <= 1 || Stays() ==> givenUp == old(givenUp)
      ensures forall r :: r in scheduled ==> r in old(scheduled)
      ensures old(current).Some? || old(scheduled) == [] ==>
                scheduled == old(scheduled) && current == old(current) && initiated == old(initiated)
                && completions == old(completions) && skipped == old(skipped) && givenUp == old(givenUp)
      ensures old(current).None? && old(scheduled) != [] ==>
                var request := old(scheduled)[0];
                && old(initiated) + [request] <= initiated
                && Began(onInitiate(request), Some(request), RemoveFirst(old(scheduled), request), old(completions))
      decreases Lives(), 2
    {
      if current == None && scheduled != [] {
        hide Orderly;
        var request := scheduled[0];
        Initiated(scheduled, arrived, initiated, completions, skipped, givenUp);
        FirstRemoved(scheduled);
        current := Some(request);
        scheduled := RemoveFirst(scheduled, request);
        initiated := initiated + [request];
        // auth_request_initiate
        RunHandler(onInitiate(request));
      }
    }

    // A handler's calls in turn; complete is for when there is a current request.
    method RunHandler(actions: seq<Action>)
      requires Valid()
      modifies this
      ensures Valid() && old(initiated) <= initiated && Lives() <= old(Lives())
      ensures arrived == old(arrived) && idles == old(idles) && old(completions) <= completions
      ensures old(givenUp) <= givenUp && Began(actions, old(current), old(scheduled), old(completions))
      ensures old(skipped) <= skipped && OnlyDropped(old(givenUp), old(scheduled))
      ensures old(scheduled) == [] || (Stays() && Unregister !in actions) ==> givenUp == old(givenUp)
      ensures forall r :: r in scheduled ==> r in old(scheduled)
      ensures actions == [] ==> initiated == old(initiated) && skipped == old(skipped) && givenUp == old(givenUp)
      decreases Lives(), 1, |actions|
    {
      hide Orderly;
      if actions == [] {
        return;
      }
      match actions[0] {
        case Complete(dismissed) =>
          if current.Some? {
            AuthRequestComplete(current.value, dismissed);
          }
        case Unregister =>
          UnregisterAll();
      }
      RunHandler(actions[1..]);
    }

    // auth_request_complete, of the current request, or of one that is given up while it waits.
    method AuthRequestComplete(request: nat, dismissed: bool)
      requires Valid() && Live(scheduled, current, request) && (current != Some(request) ==> request in givenUp)
      modifies this
      ensures Valid() && old(initiated) <= initiated && Lives() < old(Lives())
      ensures arrived == old(arrived) && idles == old(idles) && old(givenUp) <= givenUp
      ensures old(skipped) <= skipped && OnlyDropped(old(givenUp), old(scheduled))
      ensures |old(scheduled)| <= 1 || Stays() ==> givenUp == old(givenUp)
      ensures forall r :: r in scheduled ==> r in old(scheduled)
      ensures old(completions) + [Completion(request, dismissed)] <= completions
      ensures old(current) != Some(request) ==>
                && current == old(current) && scheduled == RemoveFirst(old(scheduled), request)
                && initiated == old(initiated)
                && completions == old(completions) + [Completion(request, dismissed)]
                && skipped == old(skipped) + {request} && givenUp == old(givenUp)
      ensures old(current) == Some(request) && old(scheduled) == [] ==>
                current == None && scheduled == [] && initiated == old(initiated)
                && completions == old(completions) + [Completion(request, dismissed)]
                && skipped == old(skipped) && givenUp == old(givenUp)
      ensures old(current) == Some(request) && old(scheduled) != [] ==>
                old(initiated) + [old(scheduled)[0]] <= initiated
      decreases Lives(), 0
    {
      hide Orderly;
      var isCurrent := current == Some(request);
      Completed(scheduled, current, arrived, initiated, completions, skipped, givenUp, request, dismissed);
      RemoveFirstIn(scheduled, request);
      if !isCurrent {
        scheduled := RemoveFirst(scheduled, request);
        skipped := skipped + {request};
      }
      completions := completions + [Completion(request, dismissed)];
      if isCurrent {
        current := None;
        MaybeProcessNextRequest();
      }
    }

    // shell_polkit_authentication_agent_unregister: everything is dismissed, what waits first, and nothing initiated.
    method UnregisterAll()
      requires Valid()
      modifies this
      ensures Valid() && current == None && scheduled == [] && initiated == old(initiated)
      ensures arrived == old(arrived) && idles == old(idles) && Lives() == 0
      ensures givenUp == old(givenUp) + (set r | r in old(scheduled))
      ensures skipped == old(skipped) + (set r | r in old(scheduled)) && OnlyDropped(old(givenUp), old(scheduled))
      ensures completions == old(completions) + Dismissals(old(scheduled))
                             + if old(current).Some? then [Completion(old(current).value, true)] else []
      decreases Lives(), 1, 0
    {
      hide Orderly;
      var waiting := scheduled;
      ghost var more := set r | r in scheduled;
      MoreGivenUp(scheduled, current, arrived, initiated, completions, skipped, givenUp, more);
      givenUp := givenUp + more;
      var i := 0;
      while i < |waiting|
        invariant 0 <= i <= |waiting| && Valid()
        invariant scheduled == waiting[i..] && current == old(current) && initiated == old(initiated)
        invariant arrived == old(arrived) && idles == old(idles)
        invariant givenUp == old(givenUp) + more
        invariant skipped == old(skipped) + (set r | r in waiting[..i])
        invariant completions == old(completions) + Dismissals(waiting[..i])
      {
        assert waiting[i] == scheduled[0] && scheduled[0] in scheduled;
        if current == Some(waiting[i]) {
          OneCurrent(waiting[i]);
        }
        ghost var rest := waiting[i..];
        AuthRequestComplete(waiting[i], true);
        assert RemoveFirst(rest, waiting[i]) == rest[1..] == waiting[i + 1..];
        DismissalsStep(waiting, i);
        assert waiting[..i + 1] == waiting[..i] + [waiting[i]];
        i := i + 1;
      }
      assert waiting[..i] == waiting;
      forall r | r in waiting
        ensures Completion(r, true) in completions
      {
        var j :| 0 <= j < |waiting| && waiting[j] == r;
        assert Dismissals(waiting)[j] == Completion(r, true);
      }
      if current.Some? {
        AuthRequestComplete(current.value, true);
      }
    }

    // ---------- what the agent is asked ----------

    // initiate_authentication
    method InitiateAuthentication() returns (request: nat)
      requires Valid()
      modifies this
      ensures Valid() && request == old(arrived) && arrived == request + 1 && idles == old(idles)
      ensures givenUp == old(givenUp) && old(skipped) <= skipped && old(completions) <= completions
      ensures old(initiated) <= initiated && (old(current).None? ==> old(initiated) + [request] <= initiated)
      ensures old(current).Some? ==>
                scheduled == old(scheduled) + [request] && current == old(current) && initiated == old(initiated)
    {
      hide Orderly;
      request := arrived;
      Arrived(scheduled, current, arrived, initiated, completions, skipped, givenUp);
      arrived := arrived + 1;
      scheduled := scheduled + [request];
      MaybeProcessNextRequest();
    }

    // on_request_cancelled, connected while the request is live.
    method OnRequestCancelled(request: nat)
      requires Valid() && Live(scheduled, current, request)
      modifies this`idles, this`givenUp
      ensures Valid() && idles == old(idles) + {request} && givenUp == old(givenUp) + {request}
    {
      idles := idles + {request};
      givenUp := givenUp + {request};
    }

    // handle_cancelled_in_idle, of a request that is live still; `onCancel` is what the cancel handler does.
    method HandleCancelledInIdle(request: nat, onCancel: seq<Action>)
      requires Valid() && request in idles && Live(scheduled, current, request)
      modifies this
      ensures Valid() && old(initiated) <= initiated && idles == old(idles) - {request}
      ensures old(givenUp) <= givenUp && old(skipped) <= skipped && OnlyDropped(old(givenUp), old(scheduled))
      ensures old(current) != Some(request) || (Stays() && Unregister !in onCancel) ==> givenUp == old(givenUp)
      ensures old(completions) <= completions
      ensures old(current) == Some(request) ==>
                Began(onCancel, old(current), old(scheduled), old(completions))
      ensures old(current) != Some(request) ==>
                completions == old(completions) + [Completion(request, false)]
                && current == old(current) && scheduled == RemoveFirst(old(scheduled), request)
                && initiated == old(initiated)
    {
      hide Orderly;
      idles := idles - {request};
      if current == Some(request) {
        RunHandler(onCancel);
      } else {
        AuthRequestComplete(request, false);
      }
    }

    // shell_polkit_authentication_agent_complete
    method CompleteCurrent(dismissed: bool)
      requires Valid() && current.Some?
      modifies this
      ensures Valid() && old(initiated) <= initiated && idles == old(idles)
      ensures old(completions) + [Completion(old(current).value, dismissed)] <= completions
      ensures old(scheduled) != [] ==> old(initiated) + [old(scheduled)[0]] <= initiated
      ensures old(givenUp) <= givenUp && old(skipped) <= skipped && OnlyDropped(old(givenUp), old(scheduled))
      ensures |old(scheduled)| <= 1 || Stays() ==> givenUp == old(givenUp)
    {
      AuthRequestComplete(current.value, dismissed);
    }

    /**
      Whatever is asked, in whatever order; what cannot happen now is passed over. Only requests that are cancelled are
      given up, and, if the agent is unregistered, those dismissed then without having been initiated.
     */
    method Run(events: seq<Event>)
      requires Valid()
      modifies this
      ensures Valid() && old(initiated) <= initiated && old(givenUp) <= givenUp
      ensures forall r :: r in givenUp && r !in old(givenUp) && r !in CancelledIn(events) ==>
                r in skipped && Completion(r, true) in completions
      ensures Stays() && (forall e :: e in events ==> !MayUnregister(e)) ==>
                givenUp <= old(givenUp) + CancelledIn(events)
    {
      hide Orderly;
      for k := 0 to |events|
        invariant Valid() && old(initiated) <= initiated && old(givenUp) <= givenUp
        invariant forall r :: r in givenUp && r !in old(givenUp) && r !in CancelledIn(events) ==>
                    r in skipped && Completion(r, true) in completions
        invariant Stays() && (forall e :: e in events ==> !MayUnregister(e)) ==>
                    givenUp <= old(givenUp) + CancelledIn(events)
      {
        assert events[k] in events;
        ghost var told, dropped, were := completions, skipped, givenUp;
        match events[k] {
          case Arrives => var _ := InitiateAuthentication();
          case Cancelled(r) =>
            if Live(scheduled, current, r) {
              OnRequestCancelled(r);
            }
          case IdleRuns(r, onCancel) =>
            if r in idles && Live(scheduled, current, r) {
              HandleCancelledInIdle(r, onCancel);
            }
          case Answered(dismissed) =>
            if current.Some? {
              CompleteCurrent(dismissed);
            }
          case Unregisters => UnregisterAll();
        }
        assert told <= completions && dropped <= skipped;
        forall r | r in givenUp && r !in old(givenUp) && r !in CancelledIn(events)
          ensures r in skipped && Completion(r, true) in completions
        {
          assert r in were ==> r in dropped && Completion(r, true) in told;
        }
      }
    }
  }

  datatype Event =
    | Arrives
    | Cancelled(request: nat)
    | IdleRuns(request: nat, onCancel: seq<Action>)
    | Answered(dismissed: bool)
    | Unregisters

  ghost function CancelledIn(events: seq<Event>): set<nat> {
    set k | 0 <= k < |events| && events[k].Cancelled? :: events[k].request
  }

  predicate MayUnregister(e: Event) {
    e.Unregisters? || (e.IdleRuns? && Unregister in e.onCancel)
  }

  // r was initiated before q.
  ghost predicate Before(initiated: seq<nat>, r: nat, q: nat) {
    exists i, j :: 0 <= i < j < |initiated| && initiated[i] == r && initiated[j] == q
  }

  /**
    Every run of an agent from its start: a request that is never cancelled is initiated before all later ones, unless
    the agent was unregistered while it waited; then it was dismissed and is never initiated.
   */
  method RunFromStart(onInitiate: nat -> seq<Action>, events: seq<Event>) returns (agent: Agent)
    ensures fresh(agent) && agent.Valid() && agent.onInitiate == onInitiate
    ensures forall r: nat, q :: q in agent.initiated && r < q && r !in CancelledIn(events) ==>
              Before(agent.initiated, r, q) || (r !in agent.initiated && Completion(r, true) in agent.completions)
    ensures agent.Stays() && (forall e :: e in events ==> !MayUnregister(e)) ==>
              forall r: nat, q :: q in agent.initiated && r < q && r !in CancelledIn(events) ==>
                Before(agent.initiated, r, q)
  {
    agent := new Agent(onInitiate);
    agent.Run(events);
    forall r: nat, q | q in agent.initiated && r < q && r !in CancelledIn(events)
      ensures r in agent.givenUp ==> r !in agent.initiated && Completion(r, true) in agent.completions
      ensures r !in agent.givenUp ==> Before(agent.initiated, r, q)
    {
      agent.InitiatedArrived(q);
      agent.InArrivalOrder(r, q);
    }
  }

  lemma RemoveFirstIn(xs: seq<nat>, x: nat)
    ensures forall y :: y in RemoveFirst(xs, x) ==> y in xs
    ensures |RemoveFirst(xs, x)| <= |xs|
  {
  }

  lemma FirstRemoved(xs: seq<nat>)
    requires xs != []
    ensures RemoveFirst(xs, xs[0]) == xs[1..]
  {
  }

  function Dismissals(requests: seq<nat>): seq<Completion> {
    seq(|requests|, i requires 0 <= i < |requests| => Completion(requests[i], true))
  }

  lemma DismissalsStep(requests: seq<nat>, i: nat)
    requires i < |requests|
    ensures Dismissals(requests[..i + 1]) == Dismissals(requests[..i]) + [Completion(requests[i], true)]
  {
  }

  // The first that waits becomes current.
  lemma Initiated(scheduled: seq<nat>, arrived: nat, initiated: seq<nat>, completions: seq<Completion>,
                  skipped: set<nat>, givenUp: set<nat>)
    requires Orderly(scheduled, None, arrived, initiated, completions, skipped, givenUp) && scheduled != []
    ensures Orderly(RemoveFirst(scheduled, scheduled[0]), Some(scheduled[0]), arrived, initiated + [scheduled[0]],
                    completions, skipped, givenUp)
  {
    var r := scheduled[0];
    var rest := RemoveFirst(scheduled, r);
    RemoveIncreasing(scheduled, r);
    assert r in scheduled;
    forall q | q in rest
      ensures r < q
    {
      var j :| 0 <= j < |scheduled| && scheduled[j] == q;
    }
    forall q: nat
      ensures Live(rest, Some(r), q) <==> Live(scheduled, None, q)
    {
    }
    var initiated' := initiated + [r];
    forall i, j | 0 <= i < j < |initiated'|
      ensures initiated'[i] < initiated'[j]
    {
      assert initiated'[i] == initiated[i] && initiated[i] in initiated;
    }
  }

  lemma MoreGivenUp(scheduled: seq<nat>, current: Option<nat>, arrived: nat, initiated: seq<nat>,
                    completions: seq<Completion>, skipped: set<nat>, givenUp: set<nat>, more: set<nat>)
    requires Orderly(scheduled, current, arrived, initiated, completions, skipped, givenUp)
    ensures Orderly(scheduled, current, arrived, initiated, completions, skipped, givenUp + more)
  {
  }

  lemma Arrived(scheduled: seq<nat>, current: Option<nat>, arrived: nat, initiated: seq<nat>,
                completions: seq<Completion>, skipped: set<nat>, givenUp: set<nat>)
    requires Orderly(scheduled, current, arrived, initiated, completions, skipped, givenUp)
    ensures Orderly(scheduled + [arrived], current, arrived + 1, initiated, completions, skipped, givenUp)
  {
    var scheduled' := scheduled + [arrived];
    forall i, j | 0 <= i < j < |scheduled'|
      ensures scheduled'[i] < scheduled'[j]
    {
      assert scheduled'[i] == scheduled[i] && scheduled[i] in scheduled;
    }
    forall q: nat
      ensures Live(scheduled', current, q) <==> Live(scheduled, current, q) || q == arrived
    {
    }
  }

  lemma Completed(scheduled: seq<nat>, current: Option<nat>, arrived: nat, initiated: seq<nat>,
                  completions: seq<Completion>, skipped: set<nat>, givenUp: set<nat>, r: nat, dismissed: bool)
    requires Orderly(scheduled, current, arrived, initiated, completions, skipped, givenUp)
    requires Live(scheduled, current, r) && (current != Some(r) ==> r in givenUp)
    ensures
      var completions' := completions + [Completion(r, dismissed)];
      if current == Some(r) then Orderly(scheduled, None, arrived, initiated, completions', skipped, givenUp)
      else Orderly(RemoveFirst(scheduled, r), current, arrived, initiated, completions', skipped + {r}, givenUp)
  {
    RemoveIncreasing(scheduled, r);
    var scheduled', current' := if current == Some(r) then scheduled else RemoveFirst(scheduled, r),
                                if current == Some(r) then None else current;
    forall q: nat
      ensures Times(completions + [Completion(r, dismissed)], q) == Times(completions, q) + if q == r then 1 else 0
      ensures Live(scheduled', current', q) <==> Live(scheduled, current, q) && q != r
    {
      TimesAppend(completions, Completion(r, dismissed), q);
    }
  }
}
