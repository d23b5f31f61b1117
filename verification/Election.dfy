/** Producer election over the packed vote index, and the finalizer policies it proposes. */
module ElectionSpec {
  import opened Common
  import opened VoteSpec
  import FinalizerSpec

  const SCHEDULE_LIMIT := 21

  type Finalizers = map<Name, FinalizerSpec.Finalizer>

  // The 64-bit secondary key: active producers first, more votes first.
  function ByVotes(p: Producer): int {
    if p.active then (INT64_MAX - p.totalVotes) % TWO64 else (TWO64 - 1 - p.totalVotes) % TWO64
  }

  ghost predicate InRange(producers: map<Name, Producer>) {
    forall p :: p in producers ==> 0 <= producers[p].totalVotes <= INT64_MAX
  }

  // Order of the prototalvote index; ties are broken by the primary key.
  predicate Before(producers: map<Name, Producer>, a: Name, b: Name)
    requires a in producers && b in producers
  {
    ByVotes(producers[a]) < ByVotes(producers[b]) || (ByVotes(producers[a]) == ByVotes(producers[b]) && a < b)
  }

  // More votes, then the smaller name.
  predicate Better(producers: map<Name, Producer>, a: Name, b: Name)
    requires a in producers && b in producers
  {
    producers[a].totalVotes > producers[b].totalVotes
    || (producers[a].totalVotes == producers[b].totalVotes && a < b)
  }

  /** The index lists every producer once, in key order. */
  ghost predicate IsIndex(producers: map<Name, Producer>, idx: seq<Name>) {
    && Elements(idx) == producers.Keys
    && (forall i :: 0 <= i < |idx| ==> idx[i] in producers)
    && forall i, j :: 0 <= i < j < |idx| ==> Before(producers, idx[i], idx[j])
  }

  // What the documentation asks of an elected producer.
  ghost predicate Eligible(producers: map<Name, Producer>, finalizers: Finalizers, needKey: bool, n: Name) {
    && n in producers && producers[n].active && producers[n].totalVotes > 0
    && (needKey ==> n in finalizers && finalizers[n].activeBinary != [])
  }

  /** The best `limit` eligible producers, or all of them if there are fewer, best first. */
  ghost predicate IsTop(producers: map<Name, Producer>, finalizers: Finalizers, needKey: bool, limit: nat,
                        top: seq<Name>) {
    && (forall i :: 0 <= i < |top| ==> Eligible(producers, finalizers, needKey, top[i]))
    && (forall i, j :: 0 <= i < j < |top| ==> Better(producers, top[i], top[j]))
    && |top| <= limit
    && (forall n :: Eligible(producers, finalizers, needKey, n) && n !in top ==>
          |top| == limit && forall i :: 0 <= i < |top| ==> Better(producers, top[i], n))
  }

  /** The packed key separates active from inactive and orders each group by votes. */
  lemma PackedKeyOrder(producers: map<Name, Producer>, a: Name, b: Name)
    requires InRange(producers) && a in producers && b in producers
    ensures Before(producers, a, b) <==>
              || (producers[a].active && !producers[b].active)
              || (producers[a].active == producers[b].active && Better(producers, a, b))
  {
    assert 0 <= ByVotes(producers[a]) < TWO64;
  }

  /** There is only one such selection, so the election result is determined. */
  lemma TopUnique(producers: map<Name, Producer>, finalizers: Finalizers, needKey: bool, limit: nat, a: seq<Name>,
                  b: seq<Name>)
    requires IsTop(producers, finalizers, needKey, limit, a) && IsTop(producers, finalizers, needKey, limit, b)
    ensures a == b
  {
    SamePrefix(producers, finalizers, needKey, limit, a, b, if |a| <= |b| then |a| else |b|);
    if |a| <= |b| {
      PrefixIsAll(producers, finalizers, needKey, limit, a, b);
    } else {
      PrefixIsAll(producers, finalizers, needKey, limit, b, a);
    }
  }

  lemma PrefixIsAll(producers: map<Name, Producer>, finalizers: Finalizers, needKey: bool, limit: nat, a: seq<Name>,
                    b: seq<Name>)
    requires IsTop(producers, finalizers, needKey, limit, a) && IsTop(producers, finalizers, needKey, limit, b)
    requires |a| <= |b| && a[..|a|] == b[..|a|]
    ensures a == b
  {
    assert a == b[..|a|];
    if |a| < |b| {
      NextIsNew(producers, finalizers, needKey, limit, b, |a|);
    }
  }

  lemma NextIsNew(producers: map<Name, Producer>, finalizers: Finalizers, needKey: bool, limit: nat, b: seq<Name>,
                  n: nat)
    requires IsTop(producers, finalizers, needKey, limit, b) && n < |b|
    ensures Eligible(producers, finalizers, needKey, b[n]) && b[n] !in b[..n]
  {
    forall i | 0 <= i < n ensures b[..n][i] != b[n] {
      assert Better(producers, b[i], b[n]);
    }
  }

  lemma {:induction false} SamePrefix(producers: map<Name, Producer>, finalizers: Finalizers, needKey: bool, limit: nat,
                                      a: seq<Name>, b: seq<Name>, n: nat)
    requires IsTop(producers, finalizers, needKey, limit, a) && IsTop(producers, finalizers, needKey, limit, b)
    requires n <= |a| && n <= |b|
    ensures a[..n] == b[..n]
  {
    if n > 0 {
      SamePrefix(producers, finalizers, needKey, limit, a, b, n - 1);
      var x, y := a[n - 1], b[n - 1];
      if x != y {
        if Better(producers, x, y) {
          NotLater(producers, finalizers, needKey, limit, a, b, n - 1);
        } else {
          NotLater(producers, finalizers, needKey, limit, b, a, n - 1);
        }
      }
    }
  }

  lemma NotLater(producers: map<Name, Producer>, finalizers: Finalizers, needKey: bool, limit: nat, a: seq<Name>,
                 b: seq<Name>, n: nat)
    requires IsTop(producers, finalizers, needKey, limit, a) && IsTop(producers, finalizers, needKey, limit, b)
    requires n < |a| && n < |b| && a[..n] == b[..n]
    ensures !Better(producers, a[n], b[n])
  {
    forall j | 0 <= j < n ensures a[j] == b[j] {
      assert a[..n][j] == b[..n][j];
    }
    assert Eligible(producers, finalizers, needKey, a[n]);
    if Better(producers, a[n], b[n]) {
      forall j | 0 <= j < |b| ensures b[j] != a[n] {}
    }
  }
}

module Election {
  import opened Common
  import opened VoteSpec
  import opened ElectionSpec
  import F = FinalizerSpec
  import opened FinalizerInvariant
  import opened FinalizerContract

  function AuthOf(finalizers: Finalizers, n: Name): F.Auth {
    if n in finalizers then F.AuthOf(n, finalizers[n]) else F.Auth(0, [], n)
  }

  function Auths(finalizers: Finalizers, top: seq<Name>): seq<F.Auth> {
    seq(|top|, i requires 0 <= i < |top| => AuthOf(finalizers, top[i]))
  }

  // The scan has chosen `top` among idx[..i].
  ghost predicate Scanned(producers: map<Name, Producer>, finalizers: Finalizers, needKey: bool, limit: nat,
                          idx: seq<Name>, i: nat, top: seq<Name>)
  {
    && i <= |idx| && |top| <= limit
    && (forall k :: 0 <= k < |top| ==> Eligible(producers, finalizers, needKey, top[k]) && top[k] in idx[..i])
    && (forall k, l :: 0 <= k < l < |top| ==> Better(producers, top[k], top[l]))
    && (forall n :: n in idx[..i] && Eligible(producers, finalizers, needKey, n) ==> n in top)
  }

  lemma ScanSkip(producers: map<Name, Producer>, finalizers: Finalizers, needKey: bool, limit: nat,
                 idx: seq<Name>, i: nat, top: seq<Name>)
    requires Scanned(producers, finalizers, needKey, limit, idx, i, top) && i < |idx|
    requires !Eligible(producers, finalizers, needKey, idx[i])
    ensures Scanned(producers, finalizers, needKey, limit, idx, i + 1, top)
  {
    assert idx[..i + 1] == idx[..i] + [idx[i]];
  }

  lemma ScanTake(producers: map<Name, Producer>, finalizers: Finalizers, needKey: bool, limit: nat,
                 idx: seq<Name>, i: nat, top: seq<Name>)
    requires InRange(producers) && IsIndex(producers, idx)
    requires Scanned(producers, finalizers, needKey, limit, idx, i, top) && i < |idx| && |top| < limit
    requires Eligible(producers, finalizers, needKey, idx[i])
    ensures Scanned(producers, finalizers, needKey, limit, idx, i + 1, top + [idx[i]])
  {
    assert idx[..i + 1] == idx[..i] + [idx[i]];
    forall k | 0 <= k < |top| ensures Better(producers, top[k], idx[i]) {
      var j :| 0 <= j < i && idx[..i][j] == top[k];
      PackedKeyOrder(producers, idx[j], idx[i]);
    }
  }

  // Once the scan meets an inactive producer or one without votes, nobody further on is eligible.
  lemma NobodyLater(producers: map<Name, Producer>, finalizers: Finalizers, needKey: bool, idx: seq<Name>, i: nat,
                    j: nat)
    requires InRange(producers) && IsIndex(producers, idx) && i <= j < |idx|
    requires !producers[idx[i]].active || producers[idx[i]].totalVotes <= 0
    ensures !Eligible(producers, finalizers, needKey, idx[j])
  {
    if i < j {
      assert Before(producers, idx[i], idx[j]);
      PackedKeyOrder(producers, idx[i], idx[j]);
    }
  }

  lemma ScanDone(producers: map<Name, Producer>, finalizers: Finalizers, needKey: bool, limit: nat,
                 idx: seq<Name>, i: nat, top: seq<Name>)
    requires InRange(producers) && IsIndex(producers, idx)
    requires Scanned(producers, finalizers, needKey, limit, idx, i, top)
    requires i == |idx| || |top| == limit || !producers[idx[i]].active || producers[idx[i]].totalVotes <= 0
    ensures IsTop(producers, finalizers, needKey, limit, top)
  {
    assert forall k :: 0 <= k < i ==> idx[k] in idx[..i];
    forall n | Eligible(producers, finalizers, needKey, n) && n !in top
      ensures |top| == limit && forall k :: 0 <= k < |top| ==> Better(producers, top[k], n)
    {
      assert n in Elements(idx);
      var j :| 0 <= j < |idx| && idx[j] == n;
      if |top| != limit {
        NobodyLater(producers, finalizers, needKey, idx, i, j);
      }
      forall k | 0 <= k < |top| ensures Better(producers, top[k], n) {
        var l :| 0 <= l < i && idx[..i][l] == top[k];
        assert Before(producers, idx[l], idx[j]);
        PackedKeyOrder(producers, idx[l], idx[j]);
      }
    }
  }

  /** The early-exit scan of update_elected_producers and switchtosvnn picks exactly the top producers. */
  method ScanIndex(producers: map<Name, Producer>, finalizers: Finalizers, idx: seq<Name>, limit: nat, needKey: bool)
    returns (top: seq<Name>, proposed: seq<F.Auth>)
    requires InRange(producers) && IsIndex(producers, idx)
    ensures IsTop(producers, finalizers, needKey, limit, top)
    ensures proposed == if needKey then Auths(finalizers, top) else []
  {
    hide Scanned;
    hide IsTop;
    top, proposed := [], [];
    var i := 0;
    ScanStart(producers, finalizers, needKey, limit, idx);
    while i < |idx| && |top| < limit && 0 < producers[idx[i]].totalVotes && producers[idx[i]].active
      invariant 0 <= i <= |idx| && |top| <= limit
      invariant Scanned(producers, finalizers, needKey, limit, idx, i, top)
      invariant proposed == if needKey then Auths(finalizers, top) else []
    {
      var n := idx[i];
      if needKey && (n !in finalizers || finalizers[n].activeBinary == []) {
        ScanSkip(producers, finalizers, needKey, limit, idx, i, top);
      } else {
        ScanTake(producers, finalizers, needKey, limit, idx, i, top);
        if needKey {
          proposed := proposed + [F.AuthOf(n, finalizers[n])];
        }
        top := top + [n];
      }
      i := i + 1;
    }
    ScanDone(producers, finalizers, needKey, limit, idx, i, top);
  }

  // The same scan as a function of the index.
  function Selected(producers: map<Name, Producer>, finalizers: Finalizers, idx: seq<Name>, limit: nat, needKey: bool,
                    top: seq<Name>): seq<Name>
  {
    if idx == [] || |top| >= limit || idx[0] !in producers then top
    else if producers[idx[0]].totalVotes <= 0 || !producers[idx[0]].active then top
    else if needKey && (idx[0] !in finalizers || finalizers[idx[0]].activeBinary == []) then
      Selected(producers, finalizers, idx[1..], limit, needKey, top)
    else
      Selected(producers, finalizers, idx[1..], limit, needKey, top + [idx[0]])
  }

  function TopOf(producers: map<Name, Producer>, finalizers: Finalizers, idx: seq<Name>, limit: nat,
                 needKey: bool): seq<Name> {
    Selected(producers, finalizers, idx, limit, needKey, [])
  }

  lemma {:induction false} SelectedFrom(producers: map<Name, Producer>, finalizers: Finalizers, idx: seq<Name>,
                                        limit: nat, needKey: bool, i: nat, top: seq<Name>)
    requires InRange(producers) && IsIndex(producers, idx)
    requires Scanned(producers, finalizers, needKey, limit, idx, i, top)
    ensures IsTop(producers, finalizers, needKey, limit, Selected(producers, finalizers, idx[i..], limit, needKey, top))
    decreases |idx| - i
  {
    hide IsTop;
    if i == |idx| || |top| == limit || producers[idx[i]].totalVotes <= 0 || !producers[idx[i]].active {
      ScanDone(producers, finalizers, needKey, limit, idx, i, top);
    } else {
      assert idx[i..][1..] == idx[i + 1..];
      if needKey && (idx[i] !in finalizers || finalizers[idx[i]].activeBinary == []) {
        ScanSkip(producers, finalizers, needKey, limit, idx, i, top);
        SelectedFrom(producers, finalizers, idx, limit, needKey, i + 1, top);
      } else {
        ScanTake(producers, finalizers, needKey, limit, idx, i, top);
        SelectedFrom(producers, finalizers, idx, limit, needKey, i + 1, top + [idx[i]]);
      }
    }
  }

  /** The scan of the whole index selects the top producers. */
  lemma TopOfIsTop(producers: map<Name, Producer>, finalizers: Finalizers, idx: seq<Name>, limit: nat, needKey: bool)
    requires InRange(producers) && IsIndex(producers, idx)
    ensures IsTop(producers, finalizers, needKey, limit, TopOf(producers, finalizers, idx, limit, needKey))
  {
    ScanStart(producers, finalizers, needKey, limit, idx);
    assert idx[0..] == idx;
    SelectedFrom(producers, finalizers, idx, limit, needKey, 0, []);
  }

  lemma ScanStart(producers: map<Name, Producer>, finalizers: Finalizers, needKey: bool, limit: nat, idx: seq<Name>)
    ensures Scanned(producers, finalizers, needKey, limit, idx, 0, [])
  {}

  // ---- proposed policies ----

  ghost predicate DistinctBinaries(list: seq<F.Auth>) {
    forall i, j :: 0 <= i < j < |list| ==> list[i].binary != list[j].binary
  }

  /** Entries taken from the finalizers table are current and pairwise distinct in id and key. */
  lemma ProposalLegal(s: F.State, producers: map<Name, Producer>, limit: nat, top: seq<Name>)
    requires FinOk(s) && IsTop(producers, s.finalizers, true, limit, top)
    ensures DistinctIds(Auths(s.finalizers, top)) && DistinctBinaries(Auths(s.finalizers, top))
    ensures forall a :: a in Auths(s.finalizers, top) ==> EntryOk(s, a)
  {
    var list := Auths(s.finalizers, top);
    forall i | 0 <= i < |list|
      ensures EntryOk(s, list[i]) && list[i].keyId in OwnKeys(s, top[i])
              && list[i].binary == s.finkeys[list[i].keyId].binary
    {
      assert Eligible(producers, s.finalizers, true, top[i]);
      assert FinalizerOk(s, top[i]);
    }
    forall i, j | 0 <= i < j < |list| ensures list[i].keyId != list[j].keyId && list[i].binary != list[j].binary {
      assert Better(producers, top[i], top[j]);
    }
  }

  lemma SortKeepsBinaries(list: seq<F.Auth>)
    requires DistinctIds(list) && DistinctBinaries(list)
    ensures DistinctBinaries(F.SortById(list))
  {
    SortByIdSorts(list);
    var sorted := F.SortById(list);
    forall i, j | 0 <= i < j < |sorted| ensures sorted[i].binary != sorted[j].binary {
      assert sorted[i] in list && sorted[j] in list;
      assert sorted[i].keyId < sorted[j].keyId;
    }
  }

  /** A nonempty policy has a reachable threshold, the least one above two thirds. */
  lemma ThresholdLegal(list: seq<F.Auth>)
    requires list != []
    ensures var t := F.PolicyFor(list).threshold; 0 < t <= |list| && 3 * (t - 1) <= 2 * |list| < 3 * t
  {}

  /**
   * The policy of an election names every elected producer's active key once, and its threshold can
   * be reached and lies above two thirds.
   */
  lemma ElectionPolicyLegal(s: F.State, producers: map<Name, Producer>, limit: nat, top: seq<Name>)
    requires FinOk(s) && IsTop(producers, s.finalizers, true, limit, top) && top != []
    ensures var policy := F.PolicyFor(F.SortById(Auths(s.finalizers, top)));
            && |policy.finalizers| == |top| && DistinctBinaries(policy.finalizers)
            && (forall a :: a in policy.finalizers <==>
                  exists i :: 0 <= i < |top| && a == F.AuthOf(top[i], s.finalizers[top[i]]))
            && 0 < policy.threshold <= |policy.finalizers|
            && 3 * (policy.threshold - 1) <= 2 * |policy.finalizers| < 3 * policy.threshold
    ensures var list := Auths(s.finalizers, top);
            F.SetProposed(s, list).policies ==
              s.policies + if IdsAndKeys(list)
                  == IdsAndKeys(s.lastProposed) then [] else [F.PolicyFor(F.SortById(list))]
  {
    hide FinOk;
    var list := Auths(s.finalizers, top);
    assert forall i :: 0 <= i < |top| ==> Eligible(producers, s.finalizers, true, top[i]);
    ProposalLegal(s, producers, limit, top);
    SortKeepsBinaries(list);
    SortByIdSorts(list);
    TablesOfFin(s);
    SetProposedExact(s, list);
    ThresholdLegal(F.SortById(list));
    assert forall i :: 0 <= i < |top| ==> list[i] == F.AuthOf(top[i], s.finalizers[top[i]]);
  }

  // ---- one election ----

  // Some producers are elected, and no fewer than last time.
  predicate Proposing(producers: map<Name, Producer>, s: F.State, size: nat, idx: seq<Name>) {
    var top := TopOf(producers, s.finalizers, idx, SCHEDULE_LIMIT, s.lastProposed != []);
    top != [] && |top| >= size
  }

  // The finalizer tables after the election.
  function Elect(producers: map<Name, Producer>, s: F.State, size: nat, idx: seq<Name>): F.State {
    if Proposing(producers, s, size, idx) && s.lastProposed != []
    then F.SetProposed(s, Auths(s.finalizers, TopOf(producers, s.finalizers, idx, SCHEDULE_LIMIT, true)))
    else s
  }

  // The schedule size after the election; `accepted` is the host's answer.
  function ElectedSize(producers: map<Name, Producer>, s: F.State, size: nat, idx: seq<Name>, accepted: bool): nat {
    if Proposing(producers, s, size, idx) && accepted
    then |TopOf(producers, s.finalizers, idx, SCHEDULE_LIMIT, s.lastProposed != [])| else size
  }

  // A policy that the host can take: distinct keys and a reachable threshold above two thirds.
  ghost predicate PolicyLegal(p: F.Policy) {
    && DistinctBinaries(p.finalizers)
    && 0 < p.threshold <= |p.finalizers| && 3 * (p.threshold - 1) <= 2 * |p.finalizers| < 3 * p.threshold
  }

  /** An election keeps the finalizer invariant, proposes legal policies only, and never shrinks the schedule. */
  lemma ElectOk(producers: map<Name, Producer>, s: F.State, size: nat, idx: seq<Name>, accepted: bool)
    requires FinOk(s) && InRange(producers) && IsIndex(producers, idx) && size <= SCHEDULE_LIMIT
    ensures FinOk(Elect(producers, s, size, idx))
    ensures size <= ElectedSize(producers, s, size, idx, accepted) <= SCHEDULE_LIMIT
    ensures var t := Elect(producers, s, size, idx);
            t.policies == s.policies || exists p :: PolicyLegal(p) && t.policies == s.policies + [p]
  {
    hide FinOk;
    var needKey := s.lastProposed != [];
    var top := TopOf(producers, s.finalizers, idx, SCHEDULE_LIMIT, needKey);
    TopOfIsTop(producers, s.finalizers, idx, SCHEDULE_LIMIT, needKey);
    if needKey && Proposing(producers, s, size, idx) {
      ElectionPolicyLegal(s, producers, SCHEDULE_LIMIT, top);
      ProposalLegal(s, producers, SCHEDULE_LIMIT, top);
      TablesOfFin(s);
      SetProposedOk(s, Auths(s.finalizers, top));
      assert PolicyLegal(F.PolicyFor(F.SortById(Auths(s.finalizers, top))));
    }
  }

  lemma TablesOfFin(s: F.State)
    requires FinOk(s)
    ensures TablesOk(s) && ListOk(s)
  {}

  /** Any two sets of finalizers that reach the threshold share more than a third of all finalizers. */
  lemma QuorumsIntersect(list: seq<F.Auth>, all: set<nat>, a: set<nat>, b: set<nat>)
    requires |all| == |list| && a <= all && b <= all
    requires |a| >= F.PolicyFor(list).threshold && |b| >= F.PolicyFor(list).threshold
    ensures 3 * |a * b| > |list|
  {
    SubsetSize(a + b, all);
    assert |a + b| == |a| + |b| - |a * b|;
  }

  lemma {:induction false} SubsetSize(a: set<nat>, b: set<nat>)
    requires a <= b
    ensures |a| <= |b|
  {
    assert b == a + (b - a);
    assert |b| == |a| + |b - a|;
  }

  // ---- the actions ----

  method SortNames(names: seq<Name>) returns (sorted: seq<Name>)
    requires forall i, j :: 0 <= i < j < |names| ==> names[i] != names[j]
    ensures StrictlySorted(sorted) && Elements(sorted) == Elements(names) && |sorted| == |names|
  {
    sorted := [];
    var i := 0;
    while i < |names|
      invariant 0 <= i <= |names| && |sorted| == i
      invariant StrictlySorted(sorted) && Elements(sorted) == Elements(names[..i])
    {
      ElementsStep(names, i);
      assert names[i] !in Elements(names[..i]);
      assert forall k :: 0 <= k < |sorted| ==> sorted[k] in Elements(sorted);
      var at := 0;
      while at < |sorted| && sorted[at] < names[i]
        invariant 0 <= at <= |sorted|
        invariant forall k :: 0 <= k < at ==> sorted[k] < names[i]
      {
        at := at + 1;
      }
      InsertName(sorted, at, names[i]);
      sorted := sorted[..at] + [names[i]] + sorted[at..];
      i := i + 1;
    }
    assert names[..i] == names;
  }

  lemma InsertName(sorted: seq<Name>, at: nat, x: Name)
    requires at <= |sorted| && StrictlySorted(sorted) && x !in sorted
    requires forall k :: 0 <= k < at ==> sorted[k] < x
    requires at < |sorted| ==> x <= sorted[at]
    ensures StrictlySorted(sorted[..at] + [x] + sorted[at..])
    ensures Elements(sorted[..at] + [x] + sorted[at..]) == Elements(sorted) + {x}
  {
    var r := sorted[..at] + [x] + sorted[at..];
    assert sorted == sorted[..at] + sorted[at..];
    assert forall y :: y in r <==> y in sorted || y == x;
  }

  class ElectionTables {
    const fin: FinalizerTables
    var producers: map<Name, Producer>
    var lastScheduleSize: nat
    ghost var schedules: seq<seq<Name>>

    ghost predicate Valid()
      reads this, fin
    {
      fin.Valid() && InRange(producers) && lastScheduleSize <= SCHEDULE_LIMIT
    }

    constructor (producers: map<Name, Producer>)
      requires InRange(producers)
      ensures Valid() && fresh(fin) && lastScheduleSize == 0 && schedules == []
    {
      fin := new FinalizerTables();
      this.producers := producers;
      lastScheduleSize, schedules := 0, [];
    }

    /**
     * update_elected_producers; `accepted` is the host's answer to the proposed schedule. The schedule
     * is the top producers by name; under Savanna their active keys become the next policy.
     */
    method UpdateElectedProducers(idx: seq<Name>, accepted: bool) returns (top: seq<Name>)
      requires Valid() && IsIndex(producers, idx)
      modifies this`lastScheduleSize, this`schedules, fin
      ensures Valid()
      ensures IsTop(producers, old(fin.finalizers), old(fin.stored) != [], SCHEDULE_LIMIT, top)
      ensures var proposing := top != [] && |top| >= old(lastScheduleSize);
              && lastScheduleSize == (if proposing && accepted then |top| else old(lastScheduleSize))
              && (if proposing
                  then |schedules| == |old(schedules)| + 1 && schedules[..|old(schedules)|] == old(schedules)
                       && StrictlySorted(schedules[|old(schedules)|])
                       && Elements(schedules[|old(schedules)|]) == Elements(top)
                  else schedules == old(schedules))
              && fin.Tables() == (if proposing && old(fin.stored) != []
                                  then F.SetProposed(old(fin.Tables()), Auths(old(fin.finalizers), top))
                                  else old(fin.Tables()))
      ensures fin.Tables() == Elect(producers, old(fin.Tables()), old(lastScheduleSize), idx)
      ensures lastScheduleSize == ElectedSize(producers, old(fin.Tables()), old(lastScheduleSize), idx, accepted)
      ensures lastScheduleSize >= old(lastScheduleSize)
      ensures old(fin.stored) != [] ==> fin.stored != []
    {
      ghost var s := fin.Tables();
      var last := fin.LastProposed();
      var savanna := |last| != 0;
      var proposed;
      top, proposed := ScanIndex(producers, fin.finalizers, idx, SCHEDULE_LIMIT, savanna);
      TopOfIsTop(producers, fin.finalizers, idx, SCHEDULE_LIMIT, savanna);
      TopUnique(producers, fin.finalizers, savanna, SCHEDULE_LIMIT, top,
                TopOf(producers, fin.finalizers, idx, SCHEDULE_LIMIT, savanna));
      if |top| == 0 || |top| < lastScheduleSize {
        return;
      }
      TopDistinct(producers, fin.finalizers, savanna, SCHEDULE_LIMIT, top);
      var names := SortNames(top);
      schedules := schedules + [names];
      if accepted {
        lastScheduleSize := |names|;
      }
      if savanna {
        ProposalLegal(s, producers, SCHEDULE_LIMIT, top);
        SortByIdSorts(proposed);
        SetProposedOk(s, proposed);
        var _ := fin.ProposeFinalizers(proposed);
      }
    }

    /** switchtosvnn: as many producers with keys as the last schedule had, or nothing at all. */
    method SwitchToSavanna(idx: seq<Name>) returns (ok: bool, top: seq<Name>)
      requires Valid() && IsIndex(producers, idx)
      modifies fin
      ensures Valid()
      ensures IsTop(producers, old(fin.finalizers), true, lastScheduleSize, top)
      ensures ok <==> old(fin.stored) == [] && lastScheduleSize > 0 && |top| == lastScheduleSize
      ensures fin.Tables()
                == if ok then F.SetProposed(old(fin.Tables()), Auths(old(fin.finalizers), top)) else old(fin.Tables())
      ensures ok ==> Received(old(fin.Tables()), fin.Tables(), Auths(old(fin.finalizers), top))
      ensures ok ==> fin.stored != []
    {
      ghost var s := fin.Tables();
      var proposed;
      top, proposed := ScanIndex(producers, fin.finalizers, idx, lastScheduleSize, true);
      var last := fin.LastProposed();
      if |last| != 0 || |proposed| != lastScheduleSize {
        return false, top;
      }
      ProposalLegal(s, producers, lastScheduleSize, top);
      SortByIdSorts(proposed);
      SetProposedOk(s, proposed);
      FirstReceived(s, proposed);
      var _ := fin.ProposeFinalizers(proposed);
      last := fin.LastProposed();
      ok := |last| != 0;
    }
  }

  lemma FirstReceived(s: F.State, proposed: seq<F.Auth>)
    requires s.lastProposed == [] && DistinctIds(proposed)
    ensures proposed != [] ==> Received(s, F.SetProposed(s, proposed), proposed)
  {
    SetProposedExact(s, proposed);
    if proposed != [] {
      assert (proposed[0].keyId, proposed[0].binary) in IdsAndKeys(proposed);
    }
  }

  lemma TopDistinct(producers: map<Name, Producer>, finalizers: Finalizers, needKey: bool, limit: nat, top: seq<Name>)
    requires IsTop(producers, finalizers, needKey, limit, top)
    ensures forall i, j :: 0 <= i < j < |top| ==> top[i] != top[j]
  {
    forall i, j | 0 <= i < j < |top| ensures top[i] != top[j] {
      assert Better(producers, top[i], top[j]);
    }
  }
}
