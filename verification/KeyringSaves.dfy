/**
  Saving and deleting secrets in src/shell-network-agent.c: a save first deletes what is stored, then stores each
  secret, and counts the stores down. Keyring operations complete in any order.
 */
module KeyringSaves {
  import opened Wrappers

  datatype Secret = Secret(key: string, text: string, agentOwned: bool)

  // A value of a connection's settings, as nm_connection_for_each_setting_value meets it.
  datatype Value =
    | Public
    | Vpn(secrets: seq<Secret>)
    | Text(secret: Secret)
    | Other

  // The secrets that go to the keyring: agent-owned, and not empty.
  function ToStore(values: seq<Value>): (r: seq<Secret>) {
    if values == [] then []
    else ToStore(values[..|values| - 1]) + Kept(SecretsOf(values[|values| - 1]))
  }

  function SecretsOf(value: Value): seq<Secret> {
    match value
    case Vpn(secrets) => secrets
    case Text(secret) => [secret]
    case _ => []
  }

  function Kept(secrets: seq<Secret>): seq<Secret> {
    if secrets == [] then []
    else
      var s := secrets[|secrets| - 1];
      Kept(secrets[..|secrets| - 1]) + if s.text != "" && s.agentOwned then [s] else []
  }

  // Exactly the secrets to be kept, whichever setting they are in.
  lemma {:induction false} ToStoreIs(values: seq<Value>, s: Secret)
    ensures s in ToStore(values) <==>
            s.text != "" && s.agentOwned && exists i :: 0 <= i < |values| && s in SecretsOf(values[i])
  {
    if values != [] {
      var n := |values| - 1;
      ToStoreIs(values[..n], s);
      KeptIs(SecretsOf(values[n]), s);
      hide Kept, SecretsOf;
      assert values == values[..n] + [values[n]];
      InSome(values[..n], values[n], s);
    }
  }

  lemma InSome(values: seq<Value>, last: Value, s: Secret)
    ensures (exists i :: 0 <= i < |values + [last]| && s in SecretsOf((values + [last])[i])) <==>
            (exists i :: 0 <= i < |values| && s in SecretsOf(values[i])) || s in SecretsOf(last)
  {
    hide SecretsOf;
    var all := values + [last];
    forall i | 0 <= i < |values|
      ensures all[i] == values[i]
    {
    }
    assert all[|values|] == last;
  }

  lemma {:induction false} KeptIs(secrets: seq<Secret>, s: Secret)
    ensures s in Kept(secrets) <==> s.text != "" && s.agentOwned && s in secrets
  {
    if secrets != [] {
      var n := |secrets| - 1;
      KeptIs(secrets[..n], s);
      assert secrets == secrets[..n] + [secrets[n]];
    }
  }

  // A KeyringRequest of a save. `nSecrets` is its count of stores to wait for; freed requests are never used again.
  datatype Save = Save(values: seq<Value>, callback: bool, nSecrets: nat, stage: Stage)
  datatype Stage = Deleting | Storing | Freed

  // A KeyringRequest of a delete: its callback is the caller's, or save_delete_cb of a save.
  datatype Delete = Delete(save: Option<nat>, freed: bool)

  datatype Done = SaveDone(save: nat) | DeleteDone(delete: nat, failed: bool)

  function Times(calls: seq<Done>, save: nat): nat {
    if calls == [] then 0
    else Times(calls[..|calls| - 1], save) + if calls[|calls| - 1] == SaveDone(save) then 1 else 0
  }

  lemma TimesAppend(calls: seq<Done>, d: Done, save: nat)
    ensures Times(calls + [d], save) == Times(calls, save) + if d == SaveDone(save) then 1 else 0
  {
    assert (calls + [d])[..|calls|] == calls;
  }

  // What holds of save i: its count is that of the stores under way, and it calls back when it is freed, not before.
  ghost predicate SaveOk(save: Save, i: nat, stores: multiset<nat>, calls: seq<Done>) {
    && (save.stage == Deleting ==> save.nSecrets == 0)
    && (save.stage == Storing ==> save.nSecrets > 0)
    && save.nSecrets == stores[i]
    && (save.stage == Freed ==> save.nSecrets == 0)
    && Times(calls, i) == if save.stage == Freed && save.callback then 1 else 0
  }

  // Each save has one delete, which gets back to it, and which is under way exactly while the save waits for it.
  ghost predicate Linked(deletes: seq<Delete>, saves: seq<Save>, deleteOf: seq<nat>) {
    && |deleteOf| == |saves|
    && (forall i {:trigger saves[i]} {:trigger deleteOf[i]} :: 0 <= i < |saves| ==>
          deleteOf[i] < |deletes| && deletes[deleteOf[i]].save == Some(i)
          && (saves[i].stage == Deleting <==> !deletes[deleteOf[i]].freed))
    && (forall d {:trigger deletes[d]} :: 0 <= d < |deletes| && deletes[d].save.Some? ==>
          deletes[d].save.value < |saves| && deleteOf[deletes[d].save.value] == d)
  }

  ghost predicate Counted(saves: seq<Save>, stores: multiset<nat>, calls: seq<Done>) {
    && (forall i {:trigger saves[i]} :: 0 <= i < |saves| ==> SaveOk(saves[i], i, stores, calls))
    && (forall i: nat {:trigger stores[i]} :: i >= |saves| ==> stores[i] == 0)
    && (forall i: nat {:trigger Times(calls, i)} :: i >= |saves| ==> Times(calls, i) == 0)
  }

  // A store of one secret, by the save that started it.
  datatype Store = Store(save: nat, secret: Secret)

  function StoresOf(i: nat, secrets: seq<Secret>): seq<Store> {
    seq(|secrets|, k requires 0 <= k < |secrets| => Store(i, secrets[k]))
  }

  class Keyring {
    var saves: seq<Save>
    var deletes: seq<Delete>
    // The stores under way, by the save that started them.
    var stores: multiset<nat>
    var calls: seq<Done>
    // Every store started, in order.
    var started: seq<Store>
    ghost var deleteOf: seq<nat>

    ghost predicate Valid()
      reads this
    {
      Counted(saves, stores, calls) && Linked(deletes, saves, deleteOf)
    }

    // A save's callback is called once, when its last store has completed, and the request is freed then. Until then
    // one of its stores is under way, or its own delete.
    lemma CalledOnce(i: nat)
      requires Valid() && i < |saves|
      ensures Times(calls, i) == if saves[i].callback && saves[i].stage == Freed then 1 else 0
      ensures saves[i].stage == Freed ==> stores[i] == 0
      ensures deleteOf[i] < |deletes| && deletes[deleteOf[i]].save == Some(i)
      ensures saves[i].stage != Freed <==> stores[i] > 0 || !deletes[deleteOf[i]].freed
    {
    }

    constructor ()
      ensures Valid() && saves == [] && deletes == [] && calls == [] && started == []
    {
      saves, deletes, stores, calls, started, deleteOf := [], [], multiset{}, [], [], [];
    }

    // shell_network_agent_save_secrets
    method SaveSecrets(values: seq<Value>, callback: bool)
      requires Valid()
      modifies this`saves, this`deletes, this`deleteOf
      ensures Valid() && saves == old(saves) + [Save(values, callback, 0, Deleting)]
      ensures deletes == old(deletes) + [Delete(Some(|old(saves)|), false)]
    {
      assert Times(calls, |saves|) == 0 && stores[|saves|] == 0;
      deleteOf := deleteOf + [|deletes|];
      saves := saves + [Save(values, callback, 0, Deleting)];
      deletes := deletes + [Delete(Some(|saves| - 1), false)];
    }

    // shell_network_agent_delete_secrets, asked for by itself.
    method DeleteSecrets()
      requires Valid()
      modifies this`deletes
      ensures Valid() && deletes == old(deletes) + [Delete(None, false)]
    {
      deletes := deletes + [Delete(None, false)];
    }

    // delete_items_cb: a delete of its own reports how it went, one of a save has the save go on all the same.
    method ItemsDeleted(d: nat, failed: bool)
      requires Valid() && d < |deletes| && !deletes[d].freed
      modifies this`saves, this`deletes, this`stores, this`calls, this`started
      ensures Valid() && deletes == old(deletes)[d := old(deletes)[d].(freed := true)]
      ensures
        var of := old(deletes)[d].save;
        if of.None? then
          && calls == old(calls) + [DeleteDone(d, failed)]
          && saves == old(saves) && stores == old(stores) && started == old(started)
        else
          var i := of.value;
          var n := |ToStore(saves[i].values)|;
          && |saves| == |old(saves)| && i < |saves|
          && saves == old(saves)[i := old(saves)[i].(nSecrets := n, stage := if n == 0 then Freed else Storing)]
          && stores == old(stores)[i := n] && started == old(started) + StoresOf(i, ToStore(saves[i].values))
          && calls == if n == 0 && saves[i].callback then old(calls) + [SaveDone(i)] else old(calls)
    {
      if deletes[d].save.Some? {
        var i := deletes[d].save.value;
        deletes := deletes[d := deletes[d].(freed := true)];
        SaveDelete(i);
      } else {
        calls := calls + [DeleteDone(d, failed)];
        deletes := deletes[d := deletes[d].(freed := true)];
        forall i: nat
          ensures Times(calls, i) == Times(old(calls), i)
        {
          TimesAppend(old(calls), DeleteDone(d, failed), i);
        }
      }
    }

    // save_delete_cb, once the delete of save i has completed.
    method SaveDelete(i: nat)
      requires Counted(saves, stores, calls) && i < |saves| && saves[i].stage == Deleting
      modifies this`saves, this`stores, this`calls, this`started
      ensures Counted(saves, stores, calls) && |saves| == |old(saves)|
      ensures
        var n := |ToStore(saves[i].values)|;
        && saves == old(saves)[i := old(saves)[i].(nSecrets := n, stage := if n == 0 then Freed else Storing)]
        && stores == old(stores)[i := n] && started == old(started) + StoresOf(i, ToStore(saves[i].values))
        && calls == if n == 0 && saves[i].callback then old(calls) + [SaveDone(i)] else old(calls)
    {
      WriteSecrets(i);
      if saves[i].nSecrets == 0 {
        if saves[i].callback {
          calls := calls + [SaveDone(i)];
        }
        saves := saves[i := saves[i].(stage := Freed)];
      } else {
        saves := saves[i := saves[i].(stage := Storing)];
      }
      CountChanges(old(saves), saves, i, old(stores), stores, old(calls), calls);
    }

    // The loop of save_delete_cb over a connection's values: write_one_secret_to_keyring on each.
    method WriteSecrets(i: nat)
      requires i < |saves| && saves[i].nSecrets == stores[i] == 0
      modifies this`saves, this`stores, this`started
      ensures saves == old(saves)[i := old(saves)[i].(nSecrets := |ToStore(old(saves)[i].values)|)]
      ensures stores == old(stores)[i := |ToStore(old(saves)[i].values)|]
      ensures started == old(started) + StoresOf(i, ToStore(old(saves)[i].values))
    {
      hide Kept, SecretsOf, Counted, SaveOk;
      var values := saves[i].values;
      var k := 0;
      while k < |values|
        invariant 0 <= k <= |values|
        invariant saves == old(saves)[i := old(saves)[i].(nSecrets := |ToStore(values[..k])|)]
        invariant stores == old(stores)[i := |ToStore(values[..k])|]
        invariant started == old(started) + StoresOf(i, ToStore(values[..k]))
      {
        assert values[..k + 1][..k] == values[..k];
        assert ToStore(values[..k + 1]) == ToStore(values[..k]) + Kept(SecretsOf(values[k]));
        SaveEach(i, SecretsOf(values[k]));
        k := k + 1;
      }
      assert values[..k] == values;
    }

    // vpn_secret_iter_cb on each secret, and save_one_secret, which counts a store it starts.
    method SaveEach(i: nat, secrets: seq<Secret>)
      requires i < |saves|
      modifies this`saves, this`stores, this`started
      ensures saves == old(saves)[i := old(saves)[i].(nSecrets := old(saves)[i].nSecrets + |Kept(secrets)|)]
      ensures stores == old(stores)[i := old(stores)[i] + |Kept(secrets)|]
      ensures started == old(started) + StoresOf(i, Kept(secrets))
    {
      hide Kept, StoresOf;
      NoneKept(i);
      assert started + [] == started;
      var k := 0;
      while k < |secrets|
        invariant 0 <= k <= |secrets|
        invariant saves == old(saves)[i := old(saves)[i].(nSecrets := old(saves)[i].nSecrets + |Kept(secrets[..k])|)]
        invariant stores == old(stores)[i := old(stores)[i] + |Kept(secrets[..k])|]
        invariant started == old(started) + StoresOf(i, Kept(secrets[..k]))
      {
        KeptNext(i, secrets, k);
        if secrets[k].text != "" && secrets[k].agentOwned {
          saves := saves[i := saves[i].(nSecrets := saves[i].nSecrets + 1)];
          stores := stores + multiset{i};
          started := started + [Store(i, secrets[k])];
        }
        k := k + 1;
      }
      assert secrets[..k] == secrets;
    }

    // save_secret_cb: a store of save i completed.
    method SecretStored(i: nat)
      requires Valid() && stores[i] > 0
      modifies this`saves, this`stores, this`calls
      ensures Valid() && stores == old(stores) - multiset{i} && i < |old(saves)|
      ensures
        var last := stores[i] == 0;
        && saves == old(saves)[i := old(saves)[i].(nSecrets := old(saves)[i].nSecrets - 1,
                                                  stage := if last then Freed else Storing)]
        && calls == if last && old(saves)[i].callback then old(calls) + [SaveDone(i)] else old(calls)
    {
      hide Counted, SaveOk, Linked;
      InStore(saves, stores, calls, i);
      stores := stores - multiset{i};
      saves := saves[i := saves[i].(nSecrets := saves[i].nSecrets - 1)];
      if saves[i].nSecrets == 0 {
        if saves[i].callback {
          calls := calls + [SaveDone(i)];
        }
        saves := saves[i := saves[i].(stage := Freed)];
      }
      CountChanges(old(saves), saves, i, old(stores), stores, old(calls), calls);
      LinkedStill(deletes, old(saves), saves, deleteOf);
    }
  }

  lemma NoneKept(i: nat)
    ensures Kept([]) == [] && StoresOf(i, []) == []
  {
  }

  lemma KeptNext(i: nat, secrets: seq<Secret>, k: nat)
    requires k < |secrets|
    ensures
      var keep := secrets[k].text != "" && secrets[k].agentOwned;
      && |Kept(secrets[..k + 1])| == |Kept(secrets[..k])| + (if keep then 1 else 0)
      && StoresOf(i, Kept(secrets[..k + 1]))
         == StoresOf(i, Kept(secrets[..k])) + if keep then [Store(i, secrets[k])] else []
  {
    assert secrets[..k + 1][..k] == secrets[..k];
  }

  lemma InStore(saves: seq<Save>, stores: multiset<nat>, calls: seq<Done>, i: nat)
    requires Counted(saves, stores, calls) && stores[i] > 0
    ensures i < |saves| && saves[i].stage == Storing && saves[i].nSecrets == stores[i]
  {
    assert i < |saves|;
    assert SaveOk(saves[i], i, stores, calls);
  }

  // Which saves are deleting is all that the deletes have to do with them.
  lemma LinkedStill(deletes: seq<Delete>, saves: seq<Save>, saves': seq<Save>, deleteOf: seq<nat>)
    requires Linked(deletes, saves, deleteOf) && |saves'| == |saves|
    requires forall k :: 0 <= k < |saves| ==> (saves'[k].stage == Deleting <==> saves[k].stage == Deleting)
    ensures Linked(deletes, saves', deleteOf)
  {
    forall k | 0 <= k < |saves'|
      ensures deleteOf[k] < |deletes| && deletes[deleteOf[k]].save == Some(k)
      ensures saves'[k].stage == Deleting <==> !deletes[deleteOf[k]].freed
    {
      var _ := saves[k];
    }
  }

  // Only save i changes, from one that has not called back.
  lemma CountChanges(saves: seq<Save>, saves': seq<Save>, i: nat, stores: multiset<nat>, stores': multiset<nat>,
                     calls: seq<Done>, calls': seq<Done>)
    requires Counted(saves, stores, calls) && i < |saves| && saves[i].stage != Freed
    requires |saves'| == |saves| && saves' == saves[i := saves'[i]]
    requires saves'[i].stage == (if saves'[i].nSecrets == 0 then Freed else Storing)
    requires saves'[i].callback == saves[i].callback && saves'[i].nSecrets == stores'[i]
    requires forall k: nat {:trigger stores'[k]} :: k != i ==> stores'[k] == stores[k]
    requires calls' == if saves'[i].stage == Freed && saves[i].callback then calls + [SaveDone(i)] else calls
    ensures Counted(saves', stores', calls')
  {
    forall k: nat
      ensures Times(calls', k) == Times(calls, k) + if calls' != calls && k == i then 1 else 0
    {
      TimesAppend(calls, SaveDone(i), k);
    }
    assert SaveOk(saves[i], i, stores, calls);
    forall k | 0 <= k < |saves'|
      ensures SaveOk(saves'[k], k, stores', calls')
    {
      assert SaveOk(saves[k], k, stores, calls);
    }
  }
}
