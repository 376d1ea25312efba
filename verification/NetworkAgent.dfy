/**
  Requests for secrets in src/shell-network-agent.c: a table of pending requests, searches of the keyring that complete
  in any order or are cancelled, and answers from the user interface.
 */
module NetworkAgent {
  import opened Wrappers
  import opened KeyringSaves

  datatype Connection = Connection(path: string, alwaysAsk: bool)

  // The NMSecretAgentGetSecretsFlags that are read.
  datatype Flags = Flags(requestNew: bool, allowInteraction: bool)

  // `/` is what g_strdup_printf puts between the connection's path and the setting's name.
  function RequestId(path: string, setting: string): string {
    path + "/" + setting
  }

  lemma LastOf(path: string, setting: string)
    requires '/' !in setting
    ensures
      var id := RequestId(path, setting);
      setting == [] <==> id[|id| - 1] == '/'
  {
    var id := RequestId(path, setting);
    if setting != [] {
      assert id[|id| - 1] == setting[|setting| - 1];
    }
  }

  // A setting name has no slash, so that an id stands for one connection and setting.
  lemma {:induction false} IdsDiffer(path: string, setting: string, path': string, setting': string)
    requires '/' !in setting && '/' !in setting' && RequestId(path, setting) == RequestId(path', setting')
    ensures path == path' && setting == setting'
  {
    var id := RequestId(path, setting);
    if setting == [] || setting' == [] {
      LastOf(path, setting);
      LastOf(path', setting');
      assert path == id[..|id| - 1] == path';
    } else {
      var n, n' := |setting| - 1, |setting'| - 1;
      assert id[..|id| - 1] == RequestId(path, setting[..n]) && id[..|id| - 1] == RequestId(path', setting'[..n']);
      IdsDiffer(path, setting[..n], path', setting'[..n']);
      assert setting[n] == id[|id| - 1] == setting'[n'];
      assert setting == setting[..n] + [setting[n]] && setting' == setting'[..n'] + [setting'[n']];
    }
  }

  // A ShellAgentRequest. `cancelled` is its cancellable's; freeing it cancels. No `entries` while it searches.
  datatype Request = Request(
    id: string,
    connection: Connection,
    setting: string,
    flags: Flags,
    cancelled: bool,
    entries: Option<map<string, string>>,
    vpn: map<string, string>)

  datatype Answer =
    | AgentCanceled
    | UserCanceled
    | Failed
    | Secrets(setting: string, entries: map<string, string>, vpn: map<string, string>)

  // A call of the callback that came with a request.
  datatype Call = Call(request: nat, answer: Answer)

  // An item the keyring found: its secret, unless unlocking was denied, and the key attribute, if it has one.
  datatype Item = Item(secret: Option<string>, key: Option<string>)

  datatype Response = CONFIRMED | USER_CANCELED | INTERNAL_ERROR

  function Calls(calls: seq<Call>, r: nat): nat {
    if calls == [] then 0
    else Calls(calls[..|calls| - 1], r) + if calls[|calls| - 1].request == r then 1 else 0
  }

  lemma CallsAppend(calls: seq<Call>, c: Call, r: nat)
    ensures Calls(calls + [c], r) == Calls(calls, r) + if c.request == r then 1 else 0
  {
    assert (calls + [c])[..|calls|] == calls;
  }

  // The secrets among the items found, by key; a later item replaces an earlier one.
  function Found(items: seq<Item>): map<string, string> {
    if items == [] then map[]
    else
      var item, found := items[|items| - 1], Found(items[..|items| - 1]);
      if item.secret.Some? && item.key.Some? then found[item.key.value := item.secret.value] else found
  }

  predicate Gives(item: Item, key: string) {
    item.secret.Some? && item.key == Some(key)
  }

  // A key is there exactly if some item gives it a secret, and the last such item decides.
  lemma {:induction false} FoundIs(items: seq<Item>, key: string)
    ensures key in Found(items) <==> exists i :: 0 <= i < |items| && Gives(items[i], key)
    ensures forall i :: 0 <= i < |items| && Gives(items[i], key)
                        && (forall j :: i < j < |items| ==> !Gives(items[j], key)) ==>
              key in Found(items) && Found(items)[key] == items[i].secret.value
  {
    if items != [] {
      var n := |items| - 1;
      FoundIs(items[..n], key);
      assert forall i :: 0 <= i < n ==> items[..n][i] == items[i];
      if Gives(items[n], key) {
        assert 0 <= n < |items|;
      }
    }
  }

  /**
    The table holds the requests that are pending, each under its id; a request is cancelled when, and called back
    once, as it leaves the table; and a keyring search is under way for what has neither been cancelled nor answered.
   */
  ghost predicate Tracked(requests: map<string, nat>, made: seq<Request>, searches: set<nat>, calls: seq<Call>) {
    && (forall id {:trigger id in requests} :: id in requests ==>
          requests[id] < |made| && made[requests[id]].id == id && !made[requests[id]].cancelled)
    && (forall r {:trigger made[r]} :: 0 <= r < |made| ==>
          && (made[r].cancelled <==> !(made[r].id in requests && requests[made[r].id] == r))
          && Calls(calls, r) == (if made[r].cancelled then 1 else 0)
          && (!made[r].cancelled ==> (r in searches <==> made[r].entries.None?))
          && made[r].id == RequestId(made[r].connection.path, made[r].setting))
    && (forall r {:trigger r in searches} :: r in searches ==> r < |made|)
    && (forall r: nat {:trigger Calls(calls, r)} :: r >= |made| ==> Calls(calls, r) == 0)
  }

  class Agent {
    const keyring: Keyring
    var forceAlwaysAsk: bool
    var requests: map<string, nat>
    // Every request made, in order; a freed one stays here, cancelled, only to say that nothing uses it.
    var made: seq<Request>
    // The searches of the keyring that have not completed, by the request they are for.
    var searches: set<nat>
    var calls: seq<Call>

    ghost predicate Valid()
      reads this, keyring
    {
      Tracked(requests, made, searches, calls) && keyring.Valid()
    }

    constructor (forceAlwaysAsk: bool)
      ensures Valid() && fresh(keyring) && requests == map[] && made == [] && calls == []
    {
      keyring := new Keyring();
      this.forceAlwaysAsk := forceAlwaysAsk;
      requests, made, searches, calls := map[], [], {}, [];
    }

    // Every request is answered at most once, exactly once when it has left the table, and two that are pending at
    // the same time are not for the same connection and setting.
    lemma AnsweredOnce(r: nat)
      requires Valid() && r < |made|
      ensures Calls(calls, r) <= 1
      ensures Calls(calls, r) == 1 <==> !(made[r].id in requests && requests[made[r].id] == r)
    {
      var _ := made[r];
    }

    lemma OnePending(r: nat, q: nat)
      requires Valid() && r < |made| && q < |made| && !made[r].cancelled && !made[q].cancelled
      requires made[r].connection.path == made[q].connection.path && made[r].setting == made[q].setting
      ensures r == q
    {
      var _, _ := made[r], made[q];
    }

    // The request's callback, and its removal from the table, which frees it and so cancels its search.
    method Finish(r: nat, answer: Answer)
      requires Valid() && r < |made| && !made[r].cancelled
      modifies this`requests, this`made, this`calls
      ensures Valid() && |made| == |old(made)| && made == old(made)[r := old(made)[r].(cancelled := true)]
      ensures calls == old(calls) + [Call(r, answer)] && requests == old(requests) - {made[r].id}
    {
      hide Tracked;
      TrackLess(requests, made, searches, calls, r, answer);
      calls := calls + [Call(r, answer)];
      requests := requests - {made[r].id};
      made := made[r := made[r].(cancelled := true)];
    }

    // shell_network_agent_get_secrets: a request pending for the same setting is cancelled first.
    method GetSecrets(connection: Connection, setting: string, flags: Flags) returns (r: nat)
      requires Valid()
      modifies this`requests, this`made, this`searches, this`calls
      ensures Valid() && r == |old(made)|
      ensures
        var id := RequestId(connection.path, setting);
        var ask := flags.requestNew || (flags.allowInteraction && (forceAlwaysAsk || connection.alwaysAsk));
        var request := Request(id, connection, setting, flags, false, if ask then Some(map[]) else None, map[]);
        && (id in old(requests) ==> old(requests)[id] < |old(made)|)
        && made == (if id in old(requests) then
                      old(made)[old(requests)[id] := old(made)[old(requests)[id]].(cancelled := true)]
                    else old(made)) + [request]
        && requests == old(requests)[id := r]
        && calls == (if id in old(requests) then old(calls) + [Call(old(requests)[id], AgentCanceled)] else old(calls))
        && searches == old(searches) + if ask then {} else {r}
    {
      hide Tracked;
      var id := RequestId(connection.path, setting);
      if id in requests {
        InTable(requests, made, searches, calls, id);
        // shell_agent_request_cancel
        Finish(requests[id], AgentCanceled);
      }
      assert old(requests)[id := |made|] == requests[id := |made|];
      r := |made|;
      var ask := flags.requestNew || (flags.allowInteraction && (forceAlwaysAsk || connection.alwaysAsk));
      var entries: Option<map<string, string>> := if ask then Some(map[]) else None;
      var request := Request(id, connection, setting, flags, false, entries, map[]);
      TrackMore(requests, made, searches, calls, request);
      made := made + [request];
      requests := requests[id := r];
      if !ask {
        searches := searches + {r};
      }
    }

    /**
      get_secrets_keyring_cb: a search that was cancelled before its completion is delivered touches nothing, above
      all no newer request with the same id; any other finds its own request still in the table. `items` is none when
      the search failed.
     */
    method SearchCompletes(r: nat, items: Option<seq<Item>>)
      requires Valid() && r in searches
      modifies this`requests, this`made, this`searches, this`calls
      ensures Valid() && searches == old(searches) - {r} && r < |old(made)|
      ensures
        var request := old(made)[r];
        if request.cancelled then requests == old(requests) && made == old(made) && calls == old(calls)
        else
          && request.id in old(requests) && old(requests)[request.id] == r
          && if items.None? then
               requests == old(requests) - {request.id} && calls == old(calls) + [Call(r, Failed)]
               && made == old(made)[r := request.(cancelled := true)]
             else
               var found := Found(items.value);
               if request.setting == "vpn" || (found == map[] && request.flags.allowInteraction) then
                 requests == old(requests) && calls == old(calls)
                 && made == old(made)[r := request.(entries := Some(found))]
               else
                 requests == old(requests) - {request.id}
                 && calls == old(calls) + [Call(r, Secrets(request.setting, found, map[]))]
                 && made == old(made)[r := request.(cancelled := true)]
    {
      hide Tracked;
      Searched(requests, made, searches, calls, r);
      ghost var searches0 := searches;
      searches := searches - {r};
      if made[r].cancelled {
        return;
      }
      if items == None {
        calls := calls + [Call(r, Failed)];
        requests := requests - {made[r].id};
        TrackLess(old(requests), made, searches0, old(calls), r, Failed);
        made := made[r := made[r].(cancelled := true)];
        TrackDone(requests, made, searches0, calls, r);
        return;
      }
      var found := CollectSecrets(items.value);
      if made[r].setting == "vpn" || (found == map[] && made[r].flags.allowInteraction) {
        TrackAsk(requests, made, searches0, calls, r, found);
        made := made[r := made[r].(entries := Some(found))];
        return;
      }
      var answer := Secrets(made[r].setting, found, map[]);
      calls := calls + [Call(r, answer)];
      TrackLess(requests, made, searches0, old(calls), r, answer);
      requests := requests - {made[r].id};
      made := made[r := made[r].(cancelled := true)];
      TrackDone(requests, made, searches0, calls, r);
    }

    // The loop of get_secrets_keyring_cb over the items found.
    method CollectSecrets(items: seq<Item>) returns (found: map<string, string>)
      ensures found == Found(items)
    {
      found := map[];
      var i := 0;
      while i < |items|
        invariant 0 <= i <= |items|
        invariant found == Found(items[..i])
      {
        assert items[..i + 1][..i] == items[..i];
        if items[i].secret.Some? && items[i].key.Some? {
          found := found[items[i].key.value := items[i].secret.value];
        }
        i := i + 1;
      }
      assert items[..i] == items;
    }

    // shell_network_agent_add_vpn_secret
    method AddVpnSecret(id: string, key: string, value: string)
      requires Valid() && id in requests
      modifies this`made
      ensures Valid() && requests[id] < |old(made)|
      ensures made == old(made)[requests[id] := old(made)[requests[id]].(
                        vpn := old(made)[requests[id]].vpn[key := value])]
    {
      hide Tracked;
      InTable(requests, made, searches, calls, id);
      var request := made[requests[id]];
      TrackEdit(requests, made, searches, calls, requests[id], request.entries, request.vpn[key := value]);
      made := made[requests[id] := request.(vpn := request.vpn[key := value])];
    }

    /**
      The answer to what the user interface was asked, under the request's id, finds entries to fill in exactly if no
      search is under way for the request that has the id by then.
     */
    lemma AskedUnlessSearching(id: string)
      requires Valid() && id in requests
      ensures requests[id] < |made| && (made[requests[id]].entries.Some? <==> requests[id] !in searches)
    {
      var _ := made[requests[id]];
    }

    /**
      shell_network_agent_set_password. Without entries GLib refuses the insertion, so that an answer late for a request
      since replaced does not change one that is still searching.
     */
    method SetPassword(id: string, key: string, value: string)
      requires Valid() && id in requests
      modifies this`made
      ensures Valid() && requests[id] < |old(made)|
      ensures
        var request := old(made)[requests[id]];
        made == if requests[id] in searches then old(made)
                else old(made)[requests[id] := request.(entries := Some(request.entries.value[key := value]))]
    {
      hide Tracked;
      InTable(requests, made, searches, calls, id);
      AskedUnlessSearching(id);
      var request := made[requests[id]];
      if request.entries.Some? {
        var entries := Some(request.entries.value[key := value]);
        TrackEdit(requests, made, searches, calls, requests[id], entries, request.vpn);
        made := made[requests[id] := request.(entries := entries)];
      }
    }

    /**
      shell_network_agent_respond; a confirmation is for a request no longer searched for, since exactly such a one has
      entries. `merged` is what the connection's values are with the secrets entered.
     */
    method Respond(id: string, response: Response, merged: seq<Value>)
      requires Valid() && id in requests
      requires response == CONFIRMED ==> requests[id] !in searches
      modifies this`requests, this`made, this`calls, keyring`saves, keyring`deletes, keyring`deleteOf
      ensures Valid() && requests == old(requests) - {id} && old(requests)[id] < |old(made)|
      ensures
        var r := old(requests)[id];
        var request := old(made)[r];
        var answer := match response
          case USER_CANCELED => UserCanceled
          case INTERNAL_ERROR => Failed
          case CONFIRMED => Secrets(request.setting, request.entries.value, request.vpn);
        && calls == old(calls) + [Call(r, answer)] && made == old(made)[r := request.(cancelled := true)]
        && keyring.saves == old(keyring.saves)
             + if response == CONFIRMED && (request.flags.allowInteraction || request.flags.requestNew)
               then [Save(merged, false, 0, Deleting)] else []
    {
      hide Tracked;
      InTable(requests, made, searches, calls, id);
      AskedUnlessSearching(id);
      var r := requests[id];
      match response
      case USER_CANCELED => Finish(r, UserCanceled);
      case INTERNAL_ERROR => Finish(r, Failed);
      case CONFIRMED =>
        if made[r].flags.allowInteraction || made[r].flags.requestNew {
          keyring.SaveSecrets(merged, false);
        }
        Finish(r, Secrets(made[r].setting, made[r].entries.value, made[r].vpn));
    }

    // shell_network_agent_cancel_get_secrets
    method CancelGetSecrets(path: string, setting: string)
      requires Valid()
      modifies this`requests, this`made, this`calls
      ensures Valid() && requests == old(requests) - {RequestId(path, setting)}
      ensures
        var id := RequestId(path, setting);
        if id !in old(requests) then calls == old(calls) && made == old(made)
        else
          var r := old(requests)[id];
          && calls == old(calls) + [Call(r, AgentCanceled)] && r < |old(made)|
          && made == old(made)[r := old(made)[r].(cancelled := true)]
    {
      hide Tracked;
      var id := RequestId(path, setting);
      if id in requests {
        InTable(requests, made, searches, calls, id);
        Finish(requests[id], AgentCanceled);
      }
    }

    // shell_network_agent_finalize: what is still pending is answered.
    method Finalize()
      requires Valid()
      modifies this`requests, this`made, this`calls
      ensures Valid() && requests == map[] && |made| == |old(made)|
      ensures forall r :: 0 <= r < |made| ==> made[r] == old(made)[r].(cancelled := true)
      ensures forall r :: 0 <= r < |made| ==> Calls(calls, r) == 1
    {
      hide Tracked;
      while requests != map[]
        invariant Valid() && |made| == |old(made)|
        invariant forall r :: 0 <= r < |made| ==> made[r].(cancelled := true) == old(made)[r].(cancelled := true)
        decreases |requests|
      {
        var id :| id in requests;
        InTable(requests, made, searches, calls, id);
        Finish(requests[id], AgentCanceled);
      }
      NonePending(made, searches, calls);
    }
  }

  /**
    A run in which a late answer finds no entries: what a request asked for at once is asked for again without that,
    and the new request, under the same id, searches first.
   */
  method ReplacedWhileAsked(connection: Connection, setting: string) returns (agent: Agent)
    requires !connection.alwaysAsk
    ensures fresh(agent) && agent.Valid() && |agent.made| == 2
    ensures
      var id := RequestId(connection.path, setting);
      && agent.made[0].id == id && agent.made[0].entries == Some(map[]) && agent.made[0].cancelled
      && id in agent.requests && agent.requests[id] == 1 && 1 in agent.searches && agent.made[1].entries.None?
  {
    agent := new Agent(false);
    var _ := agent.GetSecrets(connection, setting, Flags(true, true));
    var _ := agent.GetSecrets(connection, setting, Flags(false, false));
  }

  lemma NonePending(made: seq<Request>, searches: set<nat>, calls: seq<Call>)
    requires Tracked(map[], made, searches, calls)
    ensures forall r :: 0 <= r < |made| ==> Calls(calls, r) == 1 && made[r].cancelled
  {
    forall r | 0 <= r < |made|
      ensures Calls(calls, r) == 1 && made[r].cancelled
    {
      var _ := made[r];
    }
  }

  lemma InTable(requests: map<string, nat>, made: seq<Request>, searches: set<nat>, calls: seq<Call>, id: string)
    requires Tracked(requests, made, searches, calls) && id in requests
    ensures requests[id] < |made| && !made[requests[id]].cancelled && made[requests[id]].id == id
  {
  }

  // A request that has not been cancelled is in the table; and what is searched for has no entries yet.
  lemma Searched(requests: map<string, nat>, made: seq<Request>, searches: set<nat>, calls: seq<Call>, r: nat)
    requires Tracked(requests, made, searches, calls) && r in searches
    ensures r < |made| && (!made[r].cancelled ==> made[r].id in requests && requests[made[r].id] == r)
    ensures made[r].cancelled ==> Tracked(requests, made, searches - {r}, calls)
  {
    var _ := made[r];
  }

  lemma TrackLess(requests: map<string, nat>, made: seq<Request>, searches: set<nat>, calls: seq<Call>, r: nat,
                  answer: Answer)
    requires Tracked(requests, made, searches, calls) && r < |made| && !made[r].cancelled
    ensures Tracked(requests - {made[r].id}, made[r := made[r].(cancelled := true)], searches,
                    calls + [Call(r, answer)])
  {
    var made' := made[r := made[r].(cancelled := true)];
    var calls' := calls + [Call(r, answer)];
    forall q: nat
      ensures Calls(calls', q) == Calls(calls, q) + if q == r then 1 else 0
    {
      CallsAppend(calls, Call(r, answer), q);
    }
    assert forall q :: 0 <= q < |made| && q != r ==> made'[q] == made[q];
    var _ := made[r];
  }

  lemma TrackDone(requests: map<string, nat>, made: seq<Request>, searches: set<nat>, calls: seq<Call>, r: nat)
    requires Tracked(requests, made, searches, calls) && r < |made| && made[r].cancelled
    ensures Tracked(requests, made, searches - {r}, calls)
  {
  }

  lemma TrackMore(requests: map<string, nat>, made: seq<Request>, searches: set<nat>, calls: seq<Call>,
                  request: Request)
    requires Tracked(requests, made, searches, calls) && request.id !in requests && !request.cancelled
    requires request.id == RequestId(request.connection.path, request.setting)
    ensures Tracked(requests[request.id := |made|], made + [request],
                    if request.entries.None? then searches + {|made|} else searches, calls)
  {
    var made' := made + [request];
    assert Calls(calls, |made|) == 0 && |made| !in searches;
    assert forall q :: 0 <= q < |made| ==> made'[q] == made[q];
  }

  lemma TrackEdit(requests: map<string, nat>, made: seq<Request>, searches: set<nat>, calls: seq<Call>, r: nat,
                  entries: Option<map<string, string>>, vpn: map<string, string>)
    requires Tracked(requests, made, searches, calls) && r < |made| && (entries.None? <==> made[r].entries.None?)
    ensures Tracked(requests, made[r := made[r].(entries := entries, vpn := vpn)], searches, calls)
  {
    var made' := made[r := made[r].(entries := entries, vpn := vpn)];
    assert forall q :: 0 <= q < |made| && q != r ==> made'[q] == made[q];
    var _ := made[r];
  }

  lemma TrackAsk(requests: map<string, nat>, made: seq<Request>, searches: set<nat>, calls: seq<Call>, r: nat,
                 found: map<string, string>)
    requires Tracked(requests, made, searches, calls) && r in searches && r < |made|
    ensures Tracked(requests, made[r := made[r].(entries := Some(found))], searches - {r}, calls)
  {
    var made' := made[r := made[r].(entries := Some(found))];
    assert forall q :: 0 <= q < |made| && q != r ==> made'[q] == made[q];
    var _ := made[r];
  }
}
