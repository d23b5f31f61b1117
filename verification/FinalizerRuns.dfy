/** Histories of finalizer actions and election rounds. */
module FinalizerRuns {
  import opened Common
  import opened FinalizerSpec
  import opened FinalizerInvariant
  import opened Election
  import ElectionSpec
  import VoteSpec

  datatype Action =
    | Registering(isProducer: bool, name: Name, binary: Binary, proven: bool)
    | Activating(name: Name, binary: Binary)
    | Deleting(name: Name, binary: Binary)
    | Electing(names: seq<Name>)

  // An election round proposes the active keys of distinct finalizers.
  ghost predicate Electable(s: State, names: seq<Name>) {
    && (forall i :: 0 <= i < |names| ==> names[i] in s.finalizers)
    && (forall i, j :: 0 <= i < j < |names| ==> names[i] != names[j])
  }

  ghost function Step(s: State, a: Action): State {
    match a
    case Registering(isProducer, name, binary, proven) =>
      (match RegFinKey(s, isProducer, name, binary, proven) case Ok(t) => t case Err(_) => s)
    case Activating(name, binary) => (match ActFinKey(s, name, binary) case Ok(t) => t case Err(_) => s)
    case Deleting(name, binary) => (match DelFinKey(s, name, binary) case Ok(t) => t case Err(_) => s)
    case Electing(names) => if Electable(s, names) then SetProposed(s, Auths(s.finalizers, names)) else s
  }

  ghost function Run(acts: seq<Action>): State {
    if acts == [] then EMPTY else Step(Run(acts[..|acts| - 1]), acts[|acts| - 1])
  }

  // Decoded keys are never empty.
  ghost predicate Decoded(acts: seq<Action>) {
    forall i :: 0 <= i < |acts| && acts[i].Registering? ==> acts[i].binary != []
  }

  /** The finalizers of an election round are a legal step of such a history. */
  lemma TopElectable(s: State, producers: map<Name, VoteSpec.Producer>, limit: nat, top: seq<Name>)
    requires ElectionSpec.IsTop(producers, s.finalizers, true, limit, top)
    ensures Electable(s, top)
    ensures Step(s, Electing(top)) == SetProposed(s, Election.Auths(s.finalizers, top))
  {
    assert forall i :: 0 <= i < |top| ==> ElectionSpec.Eligible(producers, s.finalizers, true, top[i]);
    TopDistinct(producers, s.finalizers, true, limit, top);
  }

  lemma ElectedEntries(s: State, names: seq<Name>)
    requires FinOk(s) && Electable(s, names)
    ensures DistinctIds(Auths(s.finalizers, names)) && DistinctBinaries(Auths(s.finalizers, names))
    ensures forall a :: a in Auths(s.finalizers, names) ==> EntryOk(s, a)
  {
    var list := Auths(s.finalizers, names);
    forall i | 0 <= i < |list|
      ensures EntryOk(s, list[i]) && list[i].keyId in OwnKeys(s, names[i])
              && list[i].binary == s.finkeys[list[i].keyId].binary
    {
      assert FinalizerOk(s, names[i]);
    }
  }

  lemma StepOk(s: State, a: Action)
    requires FinOk(s) && (a.Registering? ==> a.binary != [])
    ensures FinOk(Step(s, a)) && NextId(Step(s, a)) >= NextId(s)
    ensures a.Registering? && RegFinKey(s, a.isProducer, a.name, a.binary, a.proven).Ok? ==>
              NextId(Step(s, a)) == NextId(s) + 1
  {
    hide FinOk;
    match a
    case Registering(isProducer, name, binary, proven) => RegFinKeyOk(s, isProducer, name, binary, proven);
    case Activating(name, binary) => ActFinKeyOk(s, name, binary);
    case Deleting(name, binary) => DelFinKeyOk(s, name, binary);
    case Electing(names) =>
      if Electable(s, names) {
        ElectedEntries(s, names);
        TablesOfFin(s);
        SetProposedOk(s, Auths(s.finalizers, names));
      }
  }

  /** The four tables stay consistent over every history, so the "should never happen" branches are dead. */
  lemma {:induction false} RunOk(acts: seq<Action>)
    requires Decoded(acts)
    ensures FinOk(Run(acts))
    ensures forall name :: name in Run(acts).finalizers ==>
              Run(acts).finalizers[name].count > 0 && Run(acts).finalizers[name].activeBinary != []
  {
    if acts == [] {
      EmptyOk();
    } else {
      RunOk(acts[..|acts| - 1]);
      StepOk(Run(acts[..|acts| - 1]), acts[|acts| - 1]);
    }
    forall name | name in Run(acts).finalizers
      ensures Run(acts).finalizers[name].count > 0 && Run(acts).finalizers[name].activeBinary != []
    {
      assert FinalizerOk(Run(acts), name);
    }
  }

  lemma {:induction false} IdsGrow(acts: seq<Action>, i: nat)
    requires Decoded(acts) && i <= |acts|
    ensures NextId(Run(acts[..i])) <= NextId(Run(acts))
    decreases |acts|
  {
    if i < |acts| {
      var before := acts[..|acts| - 1];
      IdsGrow(before, i);
      assert before[..i] == acts[..i];
      RunOk(before);
      StepOk(Run(before), acts[|acts| - 1]);
    } else {
      assert acts[..i] == acts;
    }
  }

  ghost predicate Registers(acts: seq<Action>, i: nat) {
    && i < |acts| && acts[i].Registering?
    && RegFinKey(Run(acts[..i]), acts[i].isProducer, acts[i].name, acts[i].binary, acts[i].proven).Ok?
  }

  /** Ids are never reused, whatever is deleted in between. */
  lemma IdsNeverReused(acts: seq<Action>, i: nat, j: nat)
    requires Decoded(acts) && i < j && Registers(acts, i) && Registers(acts, j)
    ensures NextId(Run(acts[..i])) < NextId(Run(acts[..j]))
  {
    var upTo := acts[..i + 1];
    assert upTo[..|upTo| - 1] == acts[..i] && upTo[|upTo| - 1] == acts[i];
    RunOk(acts[..i]);
    StepOk(Run(acts[..i]), acts[i]);
    IdsGrow(acts[..j], i + 1);
    assert acts[..j][..i + 1] == upTo;
  }

  // ---- when a policy built by actfinkey has distinct keys ----

  lemma SortKeepsDuplicates(list: seq<Auth>, i: nat, j: nat)
    requires DistinctIds(list) && i < |list| && j < |list| && i != j && list[i].binary == list[j].binary
    ensures !DistinctBinaries(SortById(list))
  {
    SortByIdSorts(list);
    var sorted := SortById(list);
    assert list[i] in sorted && list[j] in sorted;
    var k :| 0 <= k < |sorted| && sorted[k] == list[i];
    var l :| 0 <= l < |sorted| && sorted[l] == list[j];
    assert k != l;
  }

  // No entry other than the replaced one already carries the key.
  ghost predicate KeyNotListed(list: seq<Auth>, oldId: nat, binary: Binary) {
    forall i :: 0 <= i < |list| && list[i].keyId != oldId ==> list[i].binary != binary
  }

  lemma ActivationProposal(s: State, name: Name, id: nat, binary: Binary)
    requires FinOk(s)
    requires IsKey(s, id, binary) && s.finkeys[id].owner == name && Inactive(s, name, id)
    requires Lists(s.lastProposed, s.finalizers[name].activeId)
    ensures var replaced := ReplaceKey(s.lastProposed, s.finalizers[name].activeId, id, binary);
            && DistinctIds(replaced)
            && AfterActivation(s, name, id, binary).lastProposed == SortById(replaced)
            && AfterActivation(s, name, id, binary).policies == s.policies + [PolicyFor(SortById(replaced))]
    ensures forall i ::
              && 0 <= i < |s.lastProposed|
              && s.lastProposed[i].keyId in s.finkeys
              && s.lastProposed[i].keyId != s.finalizers[name].activeId
              ==> s.lastProposed[i].binary != binary
  {
    hide KeyReplaced;
    var oldId, list := s.finalizers[name].activeId, s.lastProposed;
    ActivatedList(s, name, id, binary);
    NewIdNotListed(s, name, id, binary);
    forall i | 0 <= i < |list| && list[i].keyId in s.finkeys && list[i].keyId != oldId
      ensures list[i].binary != binary {
      assert EntryOk(s, list[i]);
    }
  }

  // The entries other than the replaced one have pairwise distinct keys.
  ghost predicate OthersDistinct(list: seq<Auth>, oldId: nat) {
    forall i, j :: 0 <= i < j < |list| && list[i].keyId != oldId && list[j].keyId != oldId ==>
      list[i].binary != list[j].binary
  }

  lemma ReplacedBinaries(list: seq<Auth>, oldId: nat, id: nat, binary: Binary)
    requires SortedById(list) && Lists(list, oldId)
    requires DistinctIds(ReplaceKey(list, oldId, id, binary))
    ensures DistinctBinaries(SortById(ReplaceKey(list, oldId, id, binary)))
       <==> KeyNotListed(list, oldId, binary) && OthersDistinct(list, oldId)
  {
    var replaced := ReplaceKey(list, oldId, id, binary);
    var at :| 0 <= at < |list| && list[at].keyId == oldId;
    if KeyNotListed(list, oldId, binary) && OthersDistinct(list, oldId) {
      SortKeepsBinaries(replaced);
    } else if !KeyNotListed(list, oldId, binary) {
      var i :| 0 <= i < |list| && list[i].keyId != oldId && list[i].binary == binary;
      SortKeepsDuplicates(replaced, at, i);
    } else {
      var i, j :| 0 <= i < j < |list| && list[i].keyId != oldId && list[j].keyId != oldId
                  && list[i].binary == list[j].binary;
      SortKeepsDuplicates(replaced, i, j);
    }
  }

  /**
   * The policy proposed by actfinkey has pairwise distinct keys exactly when the other listed entries
   * have, and none of them already carries the activated key; an entry that does can only be a key that
   * was deleted meanwhile.
   */
  lemma ActivationPolicyDistinct(s: State, name: Name, id: nat, binary: Binary)
    requires FinOk(s)
    requires IsKey(s, id, binary) && s.finkeys[id].owner == name && Inactive(s, name, id)
    requires Lists(s.lastProposed, s.finalizers[name].activeId)
    ensures DistinctBinaries(AfterActivation(s, name, id, binary).lastProposed)
       <==> && KeyNotListed(s.lastProposed, s.finalizers[name].activeId, binary)
            && OthersDistinct(s.lastProposed, s.finalizers[name].activeId)
    ensures forall i ::
              && 0 <= i < |s.lastProposed|
              && s.lastProposed[i].keyId in s.finkeys
              && s.lastProposed[i].keyId != s.finalizers[name].activeId
              ==> s.lastProposed[i].binary != binary
  {
    hide AfterActivation;
    ActivationProposal(s, name, id, binary);
    ReplacedBinaries(s.lastProposed, s.finalizers[name].activeId, id, binary);
  }

  // Two finalizers join a policy; the first deletes its only key, the second registers that same key
  // and activates it while the deleted entry is still listed.
  const REJOIN: seq<Action> := [
    Registering(true, 1, [1], true),
    Registering(true, 2, [2], true),
    Electing([1, 2]),
    Deleting(1, [1]),
    Registering(true, 2, [1], true),
    Activating(2, [1])]

  const K1: FinKey := FinKey(1, [1])
  const K2: FinKey := FinKey(2, [2])
  const LIST: seq<Auth> := [Auth(0, [1], 1), Auth(1, [2], 2)]
  const S2: State :=
    State(map[0 := K1, 1 := K2], map[1 := Finalizer(0, [1], 1), 2 := Finalizer(1, [2], 1)], Some(1), [], [])
  const S3: State := S2.(lastProposed := LIST, policies := [PolicyFor(LIST)])
  const S4: State := S3.(finkeys := map[1 := K2], finalizers := map[2 := Finalizer(1, [2], 1)])
  const S5: State :=
    S4.(finkeys := map[1 := K2, 2 := FinKey(2, [1])], finalizers := map[2 := Finalizer(1, [2], 2)], lastId := Some(2))

  lemma KeysDiffer()
    ensures [1] != [2]
  {
    assert [1][0] != [2][0];
  }

  lemma JoinSteps()
    ensures Step(Step(EMPTY, REJOIN[0]), REJOIN[1]) == S2
  {
    KeysDiffer();
    assert !HasKey(EMPTY, [1]);
    var s1 := State(map[0 := K1], map[1 := Finalizer(0, [1], 1)], Some(0), [], []);
    assert Step(EMPTY, REJOIN[0]) == s1;
    assert !HasKey(s1, [2]);
  }

  lemma ElectStep()
    ensures Step(S2, REJOIN[2]) == S3
  {
    assert Auths(S2.finalizers, [1, 2]) == LIST;
    assert LIST[1..] == [LIST[1]] && [LIST[1]][1..] == [];
    assert SortById([LIST[1]]) == [LIST[1]];
    assert SortById(LIST) == LIST;
  }

  lemma LeaveSteps()
    ensures Step(S3, REJOIN[3]) == S4 && Step(S4, REJOIN[4]) == S5
  {
    KeysDiffer();
    assert IsKey(S3, 0, [1]);
    assert forall i: nat :: IsKey(S3, i, [1]) ==> i == 0;
    assert S3.finkeys - {0} == S4.finkeys;
    assert S3.finalizers - {1} == S4.finalizers;
    assert !HasKey(S4, [1]);
  }

  lemma RejoinPrefix()
    ensures Run(REJOIN[..5]) == S5 && Run(REJOIN) == Step(S5, REJOIN[5])
  {
    hide Step;
    Unroll(0); Unroll(1); Unroll(2); Unroll(3); Unroll(4); Unroll(5);
    assert REJOIN[..0] == [] && REJOIN[..6] == REJOIN;
    JoinSteps();
    ElectStep();
    LeaveSteps();
  }

  lemma ActivateStep()
    requires FinOk(S5)
    ensures Step(S5, REJOIN[5]) == AfterActivation(S5, 2, 2, [1])
  {
    KeysDiffer();
    assert IsKey(S5, 2, [1]);
    assert forall i: nat :: IsKey(S5, i, [1]) ==> i == 2;
  }

  /** The election in that history is a real one: the two are the top of two voted producers with keys. */
  lemma RejoinElected()
    ensures ElectionSpec.IsTop(map[1 := VoteSpec.Producer(2, true), 2 := VoteSpec.Producer(1, true)],
                               Run(REJOIN[..2]).finalizers, true, 2, [1, 2])
    ensures Run(REJOIN[..2]).lastProposed == [] && REJOIN[2] == Electing([1, 2])
  {
    hide Step;
    Unroll(0);
    Unroll(1);
    assert REJOIN[..0] == [];
    JoinSteps();
    var producers := map[1 := VoteSpec.Producer(2, true), 2 := VoteSpec.Producer(1, true)];
    assert forall n :: ElectionSpec.Eligible(producers, S2.finalizers, true, n) ==> n in [1, 2];
  }

  /** A history after which actfinkey hands the host a policy with the same key twice. */
  lemma DuplicateKeyHistory()
    ensures Decoded(REJOIN) && !DistinctBinaries(Run(REJOIN).lastProposed)
    ensures Run(REJOIN).policies == Run(REJOIN[..5]).policies + [PolicyFor(Run(REJOIN).lastProposed)]
  {
    hide FinOk;
    hide AfterActivation;
    KeysDiffer();
    RejoinPrefix();
    RunOk(REJOIN[..5]);
    ActivateStep();
    assert LIST[0].keyId == 0 && LIST[1].keyId == 1 && Lists(S5.lastProposed, 1);
    ActivationProposal(S5, 2, 2, [1]);
    ActivationPolicyDistinct(S5, 2, 2, [1]);
    assert !KeyNotListed(S5.lastProposed, 1, [1]);
  }

  lemma Unroll(i: nat)
    requires i < |REJOIN|
    ensures Run(REJOIN[..i + 1]) == Step(Run(REJOIN[..i]), REJOIN[i])
  {
    hide Step;
    assert REJOIN[..i + 1][..i] == REJOIN[..i];
  }
}
