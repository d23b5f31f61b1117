/**
 * Finalizer keys of flon.system: the finkeys, finalizers, finkeyidgen and lastpropfins tables, and
 * the policies handed to the host.
 */
module FinalizerSpec {
  import opened Common

  // A decoded BLS public key; rows with equal binaries have equal hashes and vice versa.
  type Binary = seq<int>

  datatype FinKey = FinKey(owner: Name, binary: Binary)
  datatype Finalizer = Finalizer(activeId: nat, activeBinary: Binary, count: nat)

  // finalizer_auth_info: weight is always 1 and the description is the finalizer's name.
  datatype Auth = Auth(keyId: nat, binary: Binary, description: Name)

  datatype Policy = Policy(threshold: nat, finalizers: seq<Auth>)

  // lastId is the id handed out most recently; a missing lastpropfins row is the empty list.
  datatype State = State(
    finkeys: map<nat, FinKey>,
    finalizers: map<Name, Finalizer>,
    lastId: Option<nat>,
    lastProposed: seq<Auth>,
    policies: seq<Policy>)

  datatype Error =
    | NotAProducer
    | DuplicateKey
    | ProofOfPossessionFailed
    | NoKeysRegistered
    | KeyNotRegistered
    | KeyOfAnother
    | AlreadyActive
    | ActiveKeyInUse

  const EMPTY: State := State(map[], map[], None, [], [])

  function NextId(s: State): nat {
    match s.lastId case None => 0 case Some(id) => id + 1
  }

  ghost predicate HasKey(s: State, binary: Binary) {
    exists id: nat :: IsKey(s, id, binary)
  }

  ghost predicate IsKey(s: State, id: nat, binary: Binary) {
    id in s.finkeys && s.finkeys[id].binary == binary
  }

  // ---- policies ----

  ghost predicate SortedById(list: seq<Auth>) {
    forall i, j :: 0 <= i < j < |list| ==> list[i].keyId < list[j].keyId
  }

  function Insert(list: seq<Auth>, a: Auth): seq<Auth> {
    if list == [] || a.keyId < list[0].keyId then [a] + list else [list[0]] + Insert(list[1..], a)
  }

  function SortById(list: seq<Auth>): seq<Auth> {
    if list == [] then [] else Insert(SortById(list[1..]), list[0])
  }

  // operator== of finalizer_auth_info looks at id and key only.
  predicate SameAuths(a: seq<Auth>, b: seq<Auth>) {
    |a| == |b| && forall i :: 0 <= i < |a| ==> a[i].keyId == b[i].keyId && a[i].binary == b[i].binary
  }

  function PolicyFor(list: seq<Auth>): Policy {
    Policy(|list| * 2 / 3 + 1, list)
  }

  function SetProposed(s: State, proposed: seq<Auth>): State {
    var sorted := SortById(proposed);
    if SameAuths(sorted, s.lastProposed) then s
    else s.(lastProposed := sorted, policies := s.policies + [PolicyFor(sorted)])
  }

  function AuthOf(name: Name, f: Finalizer): Auth {
    Auth(f.activeId, f.activeBinary, name)
  }

  // ---- actions ----

  ghost function RegFinKey(s: State, isProducer: bool, name: Name, binary: Binary, proven: bool): Result<State, Error> {
    if !isProducer then Err(NotAProducer)
    else if HasKey(s, binary) then Err(DuplicateKey)
    else if !proven then Err(ProofOfPossessionFailed)
    else
      var id := NextId(s);
      var f := if name in s.finalizers then s.finalizers[name].(count := s.finalizers[name].count + 1)
               else Finalizer(id, binary, 1);
      Ok(s.(finkeys := s.finkeys[id := FinKey(name, binary)], finalizers := s.finalizers[name := f],
            lastId := Some(id)))
  }

  // The entry of the finalizer's former active key gives way to the new one.
  function ReplaceKey(list: seq<Auth>, oldId: nat, id: nat, binary: Binary): seq<Auth> {
    seq(|list|, i requires 0 <= i < |list| =>
      if list[i].keyId == oldId then Auth(id, binary, list[i].description) else list[i])
  }

  predicate Lists(list: seq<Auth>, id: nat) {
    exists i :: 0 <= i < |list| && list[i].keyId == id
  }

  ghost function ActFinKey(s: State, name: Name, binary: Binary): Result<State, Error> {
    if name !in s.finalizers || s.finalizers[name].count == 0 then Err(NoKeysRegistered)
    else if !HasKey(s, binary) then Err(KeyNotRegistered)
    else
      var id: nat :| IsKey(s, id, binary);
      var f := s.finalizers[name];
      if s.finkeys[id].owner != name then Err(KeyOfAnother)
      else if id == f.activeId then Err(AlreadyActive)
      else
        var activated := s.(finalizers := s.finalizers[name := f.(activeId := id, activeBinary := binary)]);
        if !Lists(s.lastProposed, f.activeId) then Ok(activated)
        else Ok(SetProposed(activated, ReplaceKey(s.lastProposed, f.activeId, id, binary)))
  }

  ghost function DelFinKey(s: State, name: Name, binary: Binary): Result<State, Error> {
    if name !in s.finalizers || s.finalizers[name].count == 0 then Err(NoKeysRegistered)
    else if !HasKey(s, binary) then Err(KeyNotRegistered)
    else
      var id: nat :| IsKey(s, id, binary);
      var f := s.finalizers[name];
      if s.finkeys[id].owner != name then Err(KeyOfAnother)
      else if id == f.activeId && f.count != 1 then Err(ActiveKeyInUse)
      else
        var finalizers :=
          if f.count == 1 then s.finalizers - {name} else s.finalizers[name := f.(count := f.count - 1)];
        Ok(s.(finkeys := s.finkeys - {id}, finalizers := finalizers))
  }
}

/** The invariant tying the four tables together, kept by every action. */
module FinalizerInvariant {
  import opened Common
  import opened FinalizerSpec

  ghost function OwnKeys(s: State, name: Name): set<nat> {
    set id | id in s.finkeys && s.finkeys[id].owner == name
  }

  ghost predicate KeysOk(s: State) {
    && (forall id :: id in s.finkeys ==> id < NextId(s) && s.finkeys[id].binary != [])
    && (forall i, j :: i in s.finkeys && j in s.finkeys && s.finkeys[i].binary == s.finkeys[j].binary ==> i == j)
  }

  /** A finalizers row exists iff the account owns a key; it counts its keys and names an own one. */
  ghost predicate FinalizerOk(s: State, name: Name) {
    && (name in s.finalizers <==> OwnKeys(s, name) != {})
    && (name in s.finalizers ==>
          var f := s.finalizers[name];
          && f.count == |OwnKeys(s, name)|
          && f.activeId in OwnKeys(s, name)
          && f.activeBinary == s.finkeys[f.activeId].binary)
  }

  /** A listed key is either deleted or the active key of its owner, unchanged. */
  ghost predicate EntryOk(s: State, a: Auth) {
    && a.keyId < NextId(s)
    && (a.keyId in s.finkeys ==>
          var k := s.finkeys[a.keyId];
          && k.owner in s.finalizers && s.finalizers[k.owner].activeId == a.keyId
          && k.binary == a.binary && k.owner == a.description)
  }

  ghost predicate ListOk(s: State) {
    SortedById(s.lastProposed) && forall i :: 0 <= i < |s.lastProposed| ==> EntryOk(s, s.lastProposed[i])
  }

  ghost predicate FinOk(s: State) {
    KeysOk(s) && (forall name :: FinalizerOk(s, name)) && ListOk(s)
  }

  lemma EmptyOk()
    ensures FinOk(EMPTY)
  {}

  lemma KeyUnique(s: State, i: nat, j: nat, binary: Binary)
    requires KeysOk(s) && IsKey(s, i, binary) && IsKey(s, j, binary)
    ensures i == j
  {}

  /** Regfinkey: a fresh id, a first key becomes active, otherwise only the count grows. */
  lemma RegFinKeyOk(s: State, isProducer: bool, name: Name, binary: Binary, proven: bool)
    requires FinOk(s) && binary != []
    ensures RegFinKey(s, isProducer, name, binary, proven).Ok? <==> isProducer && !HasKey(s, binary) && proven
    ensures RegFinKey(s, isProducer, name, binary, proven).Ok? ==>
              var t := RegFinKey(s, isProducer, name, binary, proven).value;
              && FinOk(t) && NextId(t) == NextId(s) + 1 && NextId(s) !in s.finkeys
              && t.lastProposed == s.lastProposed && t.policies == s.policies
              && IsKey(t, NextId(s), binary) && t.finkeys[NextId(s)].owner == name
              && t.finkeys - {NextId(s)} == s.finkeys && t.finalizers - {name} == s.finalizers - {name}
              && t.finalizers[name].activeId
                   == (if name in s.finalizers then s.finalizers[name].activeId else NextId(s))
  {
    hide KeysOk, FinalizerOk, EntryOk, SortedById;
    if RegFinKey(s, isProducer, name, binary, proven).Ok? {
      var t := RegFinKey(s, isProducer, name, binary, proven).value;
      NewKeyOk(s, t, name, binary);
      forall n ensures FinalizerOk(t, n) {
        NewCountOk(s, t, name, binary, n);
      }
      forall i | 0 <= i < |t.lastProposed| ensures EntryOk(t, t.lastProposed[i]) {
        OldEntryOk(s, t, name, binary, s.lastProposed[i]);
      }
    }
  }

  ghost predicate KeyAdded(s: State, t: State, name: Name, binary: Binary) {
    && t.finkeys == s.finkeys[NextId(s) := FinKey(name, binary)] && t.lastId == Some(NextId(s))
    && t.finalizers == s.finalizers[name := if name in s.finalizers
                                            then s.finalizers[name].(count := s.finalizers[name].count + 1)
                                            else Finalizer(NextId(s), binary, 1)]
  }

  lemma NewKeyOk(s: State, t: State, name: Name, binary: Binary)
    requires KeysOk(s) && KeyAdded(s, t, name, binary) && binary != [] && !HasKey(s, binary)
    ensures KeysOk(t) && NextId(s) !in s.finkeys
  {
    forall i | i in s.finkeys ensures s.finkeys[i].binary != binary {
      assert !IsKey(s, i, binary);
    }
  }

  lemma NewCountOk(s: State, t: State, name: Name, binary: Binary, n: Name)
    requires KeysOk(s) && KeyAdded(s, t, name, binary) && FinalizerOk(s, n)
    ensures FinalizerOk(t, n)
  {
    var id := NextId(s);
    assert OwnKeys(t, n) == if n == name then OwnKeys(s, n) + {id} else OwnKeys(s, n);
  }

  lemma OldEntryOk(s: State, t: State, name: Name, binary: Binary, a: Auth)
    requires KeyAdded(s, t, name, binary) && EntryOk(s, a)
    ensures EntryOk(t, a)
  {}

  ghost predicate Deletable(s: State, name: Name, id: nat) {
    && id in OwnKeys(s, name) && name in s.finalizers
    && (id == s.finalizers[name].activeId ==> OwnKeys(s, name) == {id})
  }

  /**
   * Delfinkey accepts exactly an own key that is not active, or the last one; deleting the row when
   * the count is 1 leaves no key of the owner behind.
   */
  lemma DelFinKeyOk(s: State, name: Name, binary: Binary)
    requires FinOk(s)
    ensures DelFinKey(s, name, binary).Ok? <==>
              exists id: nat :: IsKey(s, id, binary) && Deletable(s, name, id)
    ensures DelFinKey(s, name, binary).Ok? ==>
              var t := DelFinKey(s, name, binary).value;
              && FinOk(t) && !HasKey(t, binary) && t.lastId == s.lastId
              && t.lastProposed == s.lastProposed && t.policies == s.policies
              && OneKeyLess(s, t, name, binary)
  {
    assert FinalizerOk(s, name);
    if HasKey(s, binary) {
      var id: nat :| IsKey(s, id, binary);
      forall j | IsKey(s, j, binary) ensures j == id { KeyUnique(s, id, j, binary); }
      if s.finkeys[id].owner == name {
        SingleKey(OwnKeys(s, name), id);
        if DelFinKey(s, name, binary).Ok? {
          DeleteKeepsOk(s, name, id);
        }
      }
    }
  }

  // Only the row of that key is gone; other finalizers, and the owner's active key, stay.
  ghost predicate OneKeyLess(s: State, t: State, name: Name, binary: Binary) {
    && (exists id: nat :: IsKey(s, id, binary) && t.finkeys == s.finkeys - {id})
    && t.finalizers - {name} == s.finalizers - {name}
    && (name in t.finalizers ==> name in s.finalizers && t.finalizers[name].activeId == s.finalizers[name].activeId)
  }

  lemma SingleKey(keys: set<nat>, id: nat)
    requires id in keys
    ensures |keys| == 1 <==> keys == {id}
  {
    assert |keys - {id}| == |keys| - 1;
    if |keys| == 1 {
      assert keys - {id} == {};
      assert keys == {id};
    }
  }

  ghost function Deleted(s: State, name: Name, id: nat): State
    requires name in s.finalizers && s.finalizers[name].count > 0
  {
    var f := s.finalizers[name];
    s.(finkeys := s.finkeys - {id},
       finalizers := if f.count == 1 then s.finalizers - {name} else s.finalizers[name := f.(count := f.count - 1)])
  }

  lemma DeleteKeepsOk(s: State, name: Name, id: nat)
    requires FinOk(s) && id in s.finkeys && s.finkeys[id].owner == name
    requires name in s.finalizers && s.finalizers[name].count > 0
    requires id == s.finalizers[name].activeId ==> s.finalizers[name].count == 1
    ensures FinOk(Deleted(s, name, id))
  {
    var t := Deleted(s, name, id);
    assert FinalizerOk(s, name);
    SingleKey(OwnKeys(s, name), id);
    forall n ensures FinalizerOk(t, n) {
      assert FinalizerOk(s, n);
      assert OwnKeys(t, n) == if n == name then OwnKeys(s, n) - {id} else OwnKeys(s, n);
    }
    forall i | 0 <= i < |t.lastProposed| ensures EntryOk(t, t.lastProposed[i]) {
      assert EntryOk(s, s.lastProposed[i]);
      if t.lastProposed[i].keyId in t.finkeys {
        assert FinalizerOk(s, t.finkeys[t.lastProposed[i].keyId].owner);
      }
    }
  }

  // ---- the proposed list ----

  ghost predicate DistinctIds(list: seq<Auth>) {
    forall i, j :: 0 <= i < j < |list| ==> list[i].keyId != list[j].keyId
  }

  lemma {:induction false} InsertEntries(list: seq<Auth>, a: Auth)
    ensures multiset(Insert(list, a)) == multiset(list) + multiset{a}
    ensures forall x :: x in Insert(list, a) <==> x == a || x in list
  {
    if list == [] || a.keyId < list[0].keyId {
    } else {
      InsertEntries(list[1..], a);
      assert list == [list[0]] + list[1..];
    }
  }

  lemma {:induction false} InsertSorted(list: seq<Auth>, a: Auth)
    requires SortedById(list) && forall i :: 0 <= i < |list| ==> list[i].keyId != a.keyId
    ensures SortedById(Insert(list, a))
  {
    if list == [] || a.keyId < list[0].keyId {
    } else {
      InsertSorted(list[1..], a);
      InsertEntries(list[1..], a);
      PrependSorted(list[0], Insert(list[1..], a));
    }
  }

  lemma PrependSorted(first: Auth, rest: seq<Auth>)
    requires SortedById(rest) && forall x :: x in rest ==> first.keyId < x.keyId
    ensures SortedById([first] + rest)
  {
    assert forall i :: 0 <= i < |rest| ==> rest[i] in rest;
  }

  /** Re-sorting restores a strictly sorted list with the same entries. */
  lemma {:induction false} SortByIdSorts(list: seq<Auth>)
    requires DistinctIds(list)
    ensures SortedById(SortById(list)) && multiset(SortById(list)) == multiset(list)
    ensures |SortById(list)| == |list| && forall x :: x in SortById(list) <==> x in list
  {
    if list != [] {
      SortByIdSorts(list[1..]);
      assert list == [list[0]] + list[1..];
      forall i | 0 <= i < |SortById(list[1..])| ensures SortById(list[1..])[i].keyId != list[0].keyId {
        assert SortById(list[1..])[i] in list[1..];
      }
      InsertSorted(SortById(list[1..]), list[0]);
      InsertEntries(SortById(list[1..]), list[0]);
      assert |SortById(list)| == |multiset(SortById(list))| == |multiset(list)|;
    }
  }

  // The ids and keys of a list, which are all that the host's policy depends on.
  ghost function IdsAndKeys(list: seq<Auth>): set<(nat, Binary)> {
    set a | a in list :: (a.keyId, a.binary)
  }

  // The same ids and keys in the same order.
  lemma {:induction false} SameWhenSorted(a: seq<Auth>, b: seq<Auth>)
    requires SortedById(a) && SortedById(b) && IdsAndKeys(a) == IdsAndKeys(b)
    ensures SameAuths(a, b)
    decreases |a|
  {
    hide IdsAndKeys, SameAuths;
    NonEmpty(a);
    NonEmpty(b);
    if a == [] {
      NothingSame();
    } else {
      LastInBoth(a, b);
      LastInBoth(b, a);
      WithoutLast(a);
      WithoutLast(b);
      SameWhenSorted(a[..|a| - 1], b[..|b| - 1]);
      SameWithLast(a, b);
    }
  }

  lemma NonEmpty(list: seq<Auth>)
    ensures IdsAndKeys(list) == {} <==> list == []
  {
    if list != [] {
      assert (list[0].keyId, list[0].binary) in IdsAndKeys(list);
    }
  }

  lemma NothingSame()
    ensures SameAuths([], [])
  {}

  lemma SameWithLast(a: seq<Auth>, b: seq<Auth>)
    requires a != [] && b != [] && SameAuths(a[..|a| - 1], b[..|b| - 1])
    requires a[|a| - 1].keyId == b[|b| - 1].keyId && a[|a| - 1].binary == b[|b| - 1].binary
    ensures SameAuths(a, b)
  {}

  // The last entry of one list is no later than the last of the other.
  lemma LastInBoth(a: seq<Auth>, b: seq<Auth>)
    requires SortedById(a) && SortedById(b) && IdsAndKeys(a) == IdsAndKeys(b) && a != [] && b != []
    ensures a[|a| - 1].keyId <= b[|b| - 1].keyId
    ensures a[|a| - 1].keyId == b[|b| - 1].keyId ==> a[|a| - 1].binary == b[|b| - 1].binary
  {
    var x := a[|a| - 1];
    assert (x.keyId, x.binary) in IdsAndKeys(b);
    var y :| y in b && (y.keyId, y.binary) == (x.keyId, x.binary);
    var i :| 0 <= i < |b| && b[i] == y;
  }

  lemma WithoutLast(list: seq<Auth>)
    requires SortedById(list) && list != []
    ensures var last := list[|list| - 1];
            IdsAndKeys(list[..|list| - 1]) == IdsAndKeys(list) - {(last.keyId, last.binary)}
  {
    var last := list[|list| - 1];
    forall x | x in list && x != last ensures x in list[..|list| - 1] {
      var i :| 0 <= i < |list| && list[i] == x;
    }
    forall x | x in list[..|list| - 1] ensures x.keyId != last.keyId {
      var i :| 0 <= i < |list| - 1 && list[i] == x;
    }
  }

  // The host received one policy, holding the proposed entries in order, with the least threshold above two thirds.
  ghost predicate Received(s: State, t: State, proposed: seq<Auth>) {
    && t == s.(lastProposed := t.lastProposed, policies := t.policies)
    && SortedById(t.lastProposed) && multiset(t.lastProposed) == multiset(proposed)
    && |t.policies| == |s.policies| + 1 && t.policies[..|s.policies|] == s.policies
    && var policy := t.policies[|s.policies|];
       && policy.finalizers == t.lastProposed
       && 3 * (policy.threshold - 1) <= 2 * |proposed| < 3 * policy.threshold
  }

  /**
   * The host receives a policy exactly when the proposed ids or keys differ from the last ones; otherwise
   * nothing changes.
   */
  lemma SetProposedExact(s: State, proposed: seq<Auth>)
    requires SortedById(s.lastProposed) && DistinctIds(proposed)
    ensures IdsAndKeys(proposed) == IdsAndKeys(s.lastProposed) ==> SetProposed(s, proposed) == s
    ensures IdsAndKeys(proposed) != IdsAndKeys(s.lastProposed) ==> Received(s, SetProposed(s, proposed), proposed)
  {
    var sorted := SortById(proposed);
    SortByIdSorts(proposed);
    assert IdsAndKeys(sorted) == IdsAndKeys(proposed);
    if IdsAndKeys(proposed) == IdsAndKeys(s.lastProposed) {
      SameWhenSorted(sorted, s.lastProposed);
    } else {
      SameKeysWhenSame(sorted, s.lastProposed);
      assert |sorted| == |proposed|;
    }
  }

  lemma SameKeysWhenSame(a: seq<Auth>, b: seq<Auth>)
    ensures SameAuths(a, b) ==> IdsAndKeys(a) == IdsAndKeys(b)
  {
    if SameAuths(a, b) {
      forall x | x in a ensures (x.keyId, x.binary) in IdsAndKeys(b) {
        var i :| 0 <= i < |a| && a[i] == x;
        assert b[i] in b;
      }
      forall y | y in b ensures (y.keyId, y.binary) in IdsAndKeys(a) {
        var i :| 0 <= i < |b| && b[i] == y;
        assert a[i] in a;
      }
    }
  }

  ghost predicate TablesOk(s: State) {
    KeysOk(s) && forall name :: FinalizerOk(s, name)
  }

  /** Proposing current entries keeps the list invariant; afterwards it holds these entries, sorted. */
  lemma SetProposedOk(s: State, proposed: seq<Auth>)
    requires TablesOk(s) && DistinctIds(proposed)
    requires forall a :: a in proposed ==> EntryOk(s, a)
    requires SameAuths(SortById(proposed), s.lastProposed) ==> ListOk(s)
    ensures FinOk(SetProposed(s, proposed)) && SameAuths(SetProposed(s, proposed).lastProposed, SortById(proposed))
    ensures SetProposed(s, proposed).finkeys == s.finkeys && SetProposed(s, proposed).finalizers == s.finalizers
    ensures SetProposed(s, proposed).lastId == s.lastId
  {
    var t := SetProposed(s, proposed);
    SortByIdSorts(proposed);
    forall name ensures FinalizerOk(t, name) {
      assert FinalizerOk(s, name);
      assert OwnKeys(t, name) == OwnKeys(s, name);
    }
    if !SameAuths(SortById(proposed), s.lastProposed) {
      forall i | 0 <= i < |t.lastProposed| ensures EntryOk(t, t.lastProposed[i]) {
        assert t.lastProposed[i] in proposed;
      }
    }
  }

  ghost function Activated(s: State, name: Name, id: nat, binary: Binary): State
    requires name in s.finalizers
  {
    s.(finalizers := s.finalizers[name := s.finalizers[name].(activeId := id, activeBinary := binary)])
  }

  lemma ActivatedOk(s: State, name: Name, id: nat, binary: Binary)
    requires FinOk(s) && IsKey(s, id, binary) && s.finkeys[id].owner == name && name in s.finalizers
    requires id != s.finalizers[name].activeId
    ensures TablesOk(Activated(s, name, id, binary))
    ensures forall i :: 0 <= i < |s.lastProposed| ==>
              && s.lastProposed[i].keyId != id
              && (s.lastProposed[i].keyId != s.finalizers[name].activeId ==>
                    EntryOk(Activated(s, name, id, binary), s.lastProposed[i]))
              && (s.lastProposed[i].keyId == s.finalizers[name].activeId ==>
                    EntryOk(Activated(s, name, id, binary), Auth(id, binary, s.lastProposed[i].description)))
  {
    var t := Activated(s, name, id, binary);
    assert FinalizerOk(s, name);
    forall n ensures FinalizerOk(t, n) {
      assert FinalizerOk(s, n);
      assert OwnKeys(t, n) == OwnKeys(s, n);
    }
    forall i | 0 <= i < |s.lastProposed|
      ensures s.lastProposed[i].keyId != id
      ensures s.lastProposed[i].keyId != s.finalizers[name].activeId ==> EntryOk(t, s.lastProposed[i])
      ensures s.lastProposed[i].keyId == s.finalizers[name].activeId ==>
                EntryOk(t, Auth(id, binary, s.lastProposed[i].description))
    {
      assert EntryOk(s, s.lastProposed[i]);
    }
  }

  lemma ReplaceDistinct(list: seq<Auth>, oldId: nat, id: nat, binary: Binary)
    requires SortedById(list) && forall i :: 0 <= i < |list| ==> list[i].keyId != id
    ensures DistinctIds(ReplaceKey(list, oldId, id, binary))
  {}

  lemma ListedKeyDiffers(a: seq<Auth>, b: seq<Auth>, id: nat)
    requires Lists(a, id) && !Lists(b, id)
    ensures !SameAuths(a, b)
  {
    var i :| 0 <= i < |a| && a[i].keyId == id;
    assert i < |b| ==> b[i].keyId != id;
  }

  /**
   * Actfinkey accepts exactly an own key that is not active yet. The former active key, if listed,
   * is replaced in the list, so listed keys stay active or deleted and ids stay distinct.
   */
  lemma ActFinKeyOk(s: State, name: Name, binary: Binary)
    requires FinOk(s)
    ensures ActFinKey(s, name, binary).Ok? <==>
              exists id: nat :: IsKey(s, id, binary) && id in OwnKeys(s, name) && Inactive(s, name, id)
    ensures ActFinKey(s, name, binary).Ok? ==>
              var t := ActFinKey(s, name, binary).value;
              && FinOk(t) && t.finkeys == s.finkeys && t.lastId == s.lastId
              && name in t.finalizers && t.finalizers[name].activeBinary == binary
              && t.finalizers - {name} == s.finalizers - {name}
              && KeyActivated(s, t, name, t.finalizers[name].activeId, binary)
  {
    assert FinalizerOk(s, name);
    if HasKey(s, binary) {
      var id: nat :| IsKey(s, id, binary);
      forall j: nat | IsKey(s, j, binary) ensures j == id { KeyUnique(s, id, j, binary); }
      if s.finkeys[id].owner == name && name in s.finalizers && id != s.finalizers[name].activeId {
        ActivateKey(s, name, id, binary);
        ActivatedList(s, name, id, binary);
      }
    }
  }

  // Listed entries stay, except that the former active key gives way to the new one.
  ghost predicate KeyReplaced(list: seq<Auth>, after: seq<Auth>, oldId: nat, id: nat, binary: Binary) {
    forall a :: a in after <==>
      || (a in list && a.keyId != oldId)
      || (exists e :: e in list && e.keyId == oldId && a == Auth(id, binary, e.description))
  }

  // The list after activating the key, and the new policy, which is proposed iff the old key was listed.
  ghost predicate KeyActivated(s: State, t: State, name: Name, id: nat, binary: Binary)
    requires name in s.finalizers
  {
    var oldId := s.finalizers[name].activeId;
    && IsKey(s, id, binary) && id != oldId
    && KeyReplaced(s.lastProposed, t.lastProposed, oldId, id, binary)
    && t.policies == s.policies + if Lists(s.lastProposed, oldId) then [PolicyFor(t.lastProposed)] else []
  }

  lemma ReplacedEntries(list: seq<Auth>, oldId: nat, id: nat, binary: Binary)
    ensures KeyReplaced(list, ReplaceKey(list, oldId, id, binary), oldId, id, binary)
  {
    var after := ReplaceKey(list, oldId, id, binary);
    forall a | a in list && a.keyId != oldId ensures a in after {
      var i :| 0 <= i < |list| && list[i] == a;
      assert after[i] == a;
    }
    forall e | e in list && e.keyId == oldId ensures Auth(id, binary, e.description) in after {
      var i :| 0 <= i < |list| && list[i] == e;
      assert after[i] == Auth(id, binary, e.description);
    }
    forall a | a in after
      ensures || (a in list && a.keyId != oldId)
              || exists e :: e in list && e.keyId == oldId && a == Auth(id, binary, e.description)
    {
      var i :| 0 <= i < |after| && after[i] == a;
      assert list[i] in list;
    }
  }

  lemma ActivatedList(s: State, name: Name, id: nat, binary: Binary)
    requires FinOk(s) && IsKey(s, id, binary) && s.finkeys[id].owner == name && Inactive(s, name, id)
    ensures KeyActivated(s, AfterActivation(s, name, id, binary), name, id, binary)
    ensures Lists(s.lastProposed, s.finalizers[name].activeId) ==>
              var replaced := ReplaceKey(s.lastProposed, s.finalizers[name].activeId, id, binary);
              DistinctIds(replaced) && AfterActivation(s, name, id, binary).lastProposed == SortById(replaced)
  {
    hide FinOk, KeyReplaced;
    var oldId := s.finalizers[name].activeId;
    var list, replaced := s.lastProposed, ReplaceKey(s.lastProposed, oldId, id, binary);
    NewIdNotListed(s, name, id, binary);
    if Lists(list, oldId) {
      ReplaceDistinct(list, oldId, id, binary);
      SortByIdSorts(replaced);
      var at :| 0 <= at < |list| && list[at].keyId == oldId;
      assert replaced[at].keyId == id && replaced[at] in SortById(replaced);
      ListedKeyDiffers(SortById(replaced), list, id);
      ReplacedEntries(list, oldId, id, binary);
      SameEntries(list, replaced, SortById(replaced), oldId, id, binary);
    } else {
      NothingReplaced(list, oldId, id, binary);
    }
  }

  lemma NewIdNotListed(s: State, name: Name, id: nat, binary: Binary)
    requires FinOk(s) && IsKey(s, id, binary) && s.finkeys[id].owner == name && Inactive(s, name, id)
    ensures SortedById(s.lastProposed) && forall i :: 0 <= i < |s.lastProposed| ==> s.lastProposed[i].keyId != id
  {
    ActivatedOk(s, name, id, binary);
  }

  lemma SameEntries(list: seq<Auth>, a: seq<Auth>, b: seq<Auth>, oldId: nat, id: nat, binary: Binary)
    requires KeyReplaced(list, a, oldId, id, binary) && forall x :: x in a <==> x in b
    ensures KeyReplaced(list, b, oldId, id, binary)
  {}

  lemma NothingReplaced(list: seq<Auth>, oldId: nat, id: nat, binary: Binary)
    requires !Lists(list, oldId)
    ensures KeyReplaced(list, list, oldId, id, binary)
  {
    assert forall a :: a in list ==> exists i :: 0 <= i < |list| && list[i] == a;
  }

  ghost predicate Inactive(s: State, name: Name, id: nat) {
    name in s.finalizers && s.finalizers[name].activeId != id
  }

  ghost function AfterActivation(s: State, name: Name, id: nat, binary: Binary): State
    requires name in s.finalizers
  {
    var f := s.finalizers[name];
    if Lists(s.lastProposed, f.activeId)
    then SetProposed(Activated(s, name, id, binary), ReplaceKey(s.lastProposed, f.activeId, id, binary))
    else Activated(s, name, id, binary)
  }

  lemma ActivateKey(s: State, name: Name, id: nat, binary: Binary)
    requires FinOk(s) && IsKey(s, id, binary) && s.finkeys[id].owner == name && name in s.finalizers
    requires id != s.finalizers[name].activeId
    ensures var t := AfterActivation(s, name, id, binary);
            && FinOk(t) && t.finkeys == s.finkeys && t.lastId == s.lastId
            && name in t.finalizers && t.finalizers[name].activeBinary == binary
  {
    var oldId := s.finalizers[name].activeId;
    var t := Activated(s, name, id, binary);
    ActivatedOk(s, name, id, binary);
    if Lists(s.lastProposed, oldId) {
      var replaced := ReplaceKey(s.lastProposed, oldId, id, binary);
      ReplaceDistinct(s.lastProposed, oldId, id, binary);
      SortByIdSorts(replaced);
      var i :| 0 <= i < |s.lastProposed| && s.lastProposed[i].keyId == oldId;
      assert replaced[i].keyId == id && replaced[i] in SortById(replaced);
      ListedKeyDiffers(SortById(replaced), t.lastProposed, id);
      SetProposedOk(t, replaced);
    }
  }
}
