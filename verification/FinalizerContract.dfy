/** The finalizer-key actions as the contract runs them, with the cached list and lower_bound. */
module FinalizerContract {
  import opened Common
  import opened FinalizerSpec
  import opened FinalizerInvariant

  /** std::lower_bound by key id; it finds the key only because the list is sorted. */
  method LowerBound(list: seq<Auth>, id: nat) returns (at: nat)
    requires SortedById(list)
    ensures at <= |list|
    ensures forall i :: 0 <= i < at ==> list[i].keyId < id
    ensures forall i :: at <= i < |list| ==> id <= list[i].keyId
  {
    var low, count := 0, |list|;
    while count > 0
      invariant 0 <= low && 0 <= count && low + count <= |list|
      invariant forall i :: 0 <= i < low ==> list[i].keyId < id
      invariant forall i :: low + count <= i < |list| ==> id <= list[i].keyId
    {
      var half := count / 2;
      if list[low + half].keyId < id {
        low, count := low + half + 1, count - half - 1;
      } else {
        count := half;
      }
    }
    at := low;
  }

  class FinalizerTables {
    var finkeys: map<nat, FinKey>
    var finalizers: map<Name, Finalizer>
    var lastId: Option<nat>
    var stored: seq<Auth>
    var cached: Option<seq<Auth>>
    ghost var policies: seq<Policy>

    ghost function Tables(): State
      reads this
    {
      State(finkeys, finalizers, lastId, stored, policies)
    }

    // The cache, once filled, agrees with the table.
    ghost predicate Valid()
      reads this
    {
      FinOk(Tables()) && (cached.Some? ==> cached.value == stored)
    }

    constructor ()
      ensures Valid() && Tables() == EMPTY
    {
      finkeys, finalizers := map[], map[];
      lastId, cached := None, None;
      stored, policies := [], [];
      new;
      EmptyOk();
    }

    method LastProposed() returns (list: seq<Auth>)
      requires cached.Some? ==> cached.value == stored
      modifies this`cached
      ensures list == stored && cached == Some(stored)
    {
      if cached.None? {
        cached := Some(stored);
      }
      list := cached.value;
    }

    method NextKeyId() returns (id: nat)
      modifies this`lastId
      ensures id == NextId(old(Tables())) && lastId == Some(id)
    {
      if lastId.None? {
        id := 0;
      } else {
        id := lastId.value + 1;
      }
      lastId := Some(id);
    }

    /** set_proposed_finalizers; `called` tells whether the host received a new policy. */
    method ProposeFinalizers(proposed: seq<Auth>) returns (called: bool)
      requires cached.Some? ==> cached.value == stored
      modifies this`stored, this`cached, this`policies
      ensures Tables() == SetProposed(old(Tables()), proposed)
      ensures called <==> policies != old(policies)
      ensures cached == Some(stored)
    {
      var sorted := SortById(proposed);
      var last := LastProposed();
      called := !SameAuths(sorted, last);
      if called {
        policies := policies + [Policy(|sorted| * 2 / 3 + 1, sorted)];
        stored := sorted;
        cached := Some(sorted);
      }
    }

    method FindKey(binary: Binary) returns (found: bool, id: nat)
      ensures found <==> HasKey(Tables(), binary)
      ensures found ==> IsKey(Tables(), id, binary)
    {
      found, id := false, 0;
      var rest := finkeys.Keys;
      while rest != {}
        invariant rest <= finkeys.Keys
        invariant forall i :: i in finkeys && i !in rest ==> finkeys[i].binary != binary
        decreases rest
      {
        var i :| i in rest;
        if finkeys[i].binary == binary {
          assert IsKey(Tables(), i, binary);
          return true, i;
        }
        rest := rest - {i};
      }
    }

    method RegisterKey(isProducer: bool, name: Name, binary: Binary, proven: bool) returns (ok: bool)
      requires Valid() && binary != []
      modifies this
      ensures Valid()
      ensures ok <==> RegFinKey(old(Tables()), isProducer, name, binary, proven).Ok?
      ensures Tables() == if ok then RegFinKey(old(Tables()), isProducer, name, binary, proven).value else old(Tables())
    {
      RegFinKeyOk(Tables(), isProducer, name, binary, proven);
      var duplicate, _ := FindKey(binary);
      if !isProducer || duplicate || !proven {
        return false;
      }
      var id := NextKeyId();
      finkeys := finkeys[id := FinKey(name, binary)];
      if name !in finalizers {
        finalizers := finalizers[name := Finalizer(id, binary, 1)];
      } else {
        finalizers := finalizers[name := finalizers[name].(count := finalizers[name].count + 1)];
      }
      ok := true;
    }

    method ActivateFinalizerKey(name: Name, binary: Binary) returns (ok: bool)
      requires Valid()
      modifies this
      ensures Valid()
      ensures ok <==> ActFinKey(old(Tables()), name, binary).Ok?
      ensures Tables() == if ok then ActFinKey(old(Tables()), name, binary).value else old(Tables())
    {
      hide KeyActivated;
      ghost var s := Tables();
      ActFinKeyOk(s, name, binary);
      if name !in finalizers || finalizers[name].count == 0 {
        return false;
      }
      var found, id := FindKey(binary);
      if !found {
        return false;
      }
      SameKey(s, id, binary);
      if finkeys[id].owner != name || id == finalizers[name].activeId {
        return false;
      }
      var oldId := finalizers[name].activeId;
      finalizers := finalizers[name := finalizers[name].(activeId := id, activeBinary := finkeys[id].binary)];
      assert Tables() == Activated(s, name, id, binary);
      var list := LastProposed();
      if |list| != 0 {
        var at := LowerBound(list, oldId);
        if at < |list| && list[at].keyId == oldId {
          assert Lists(list, oldId);
          var replaced := list[at := Auth(id, finkeys[id].binary, list[at].description)];
          assert replaced == ReplaceKey(list, oldId, id, binary);
          var _ := ProposeFinalizers(replaced);
        } else {
          assert !Lists(list, oldId);
        }
      }
      ok := true;
    }

    method DeleteFinalizerKey(name: Name, binary: Binary) returns (ok: bool)
      requires Valid()
      modifies this
      ensures Valid()
      ensures ok <==> DelFinKey(old(Tables()), name, binary).Ok?
      ensures Tables() == if ok then DelFinKey(old(Tables()), name, binary).value else old(Tables())
    {
      ghost var s := Tables();
      DelFinKeyOk(s, name, binary);
      if name !in finalizers || finalizers[name].count == 0 {
        return false;
      }
      var found, id := FindKey(binary);
      if !found {
        return false;
      }
      SameKey(s, id, binary);
      if finkeys[id].owner != name || (id == finalizers[name].activeId && finalizers[name].count != 1) {
        return false;
      }
      if finalizers[name].count == 1 {
        finalizers := finalizers - {name};
      } else {
        finalizers := finalizers[name := finalizers[name].(count := finalizers[name].count - 1)];
      }
      finkeys := finkeys - {id};
      ok := true;
    }
  }

  lemma SameKey(s: State, id: nat, binary: Binary)
    requires FinOk(s) && IsKey(s, id, binary)
    ensures forall j: nat :: IsKey(s, j, binary) ==> j == id
  {}
}
