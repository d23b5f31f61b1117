/** The flon.reward actions as the contract runs them: loops over map entries, rows updated in place. */
module RewardContract {
  import opened Common
  import opened Sums
  import opened RewardSpec

  // The settlements one allocation pass attempts, one per entry of `voted`.
  type Outcomes = map<Name, Result<Settlement, Error>>

  function Attempt(rows: map<Name, Producer>, voted: map<Name, int>, votesOld: int, votesDelta: int): (o: Outcomes)
    ensures o.Keys == voted.Keys
    ensures Paying(o)
  {
    map p | p in voted :: SettleRow(ProducerRow(rows, p), votesOld, votesDelta, voted[p])
  }

  predicate Paying(o: Outcomes) {
    forall p <- o :: o[p].Ok? ==> o[p].value.reward >= 0
  }

  predicate AllOk(o: Outcomes, done: set<Name>)
    requires done <= o.Keys
  {
    forall p <- done :: o[p].Ok?
  }

  function RowsOf(o: Outcomes, done: set<Name>): map<Name, Producer>
    requires done <= o.Keys && AllOk(o, done)
  {
    map p | p in done :: o[p].value.row
  }

  function RewardsOf(o: Outcomes, done: set<Name>): map<Name, int>
    requires done <= o.Keys && AllOk(o, done)
  {
    map p | p in done :: o[p].value.reward
  }

  lemma OneMoreEntry(rows: map<Name, Producer>, o: Outcomes, done: set<Name>, p: Name)
    requires done <= o.Keys && AllOk(o, done)
    requires p in o && p !in done && o[p].Ok?
    ensures rows + RowsOf(o, done + {p}) == (rows + RowsOf(o, done))[p := o[p].value.row]
    ensures ProducerRow(rows + RowsOf(o, done), p) == ProducerRow(rows, p)
    ensures Sum(RewardsOf(o, done + {p})) == Sum(RewardsOf(o, done)) + o[p].value.reward
  {
    assert RewardsOf(o, done + {p}) == RewardsOf(o, done)[p := o[p].value.reward];
    SumUpdate(RewardsOf(o, done), p, o[p].value.reward);
  }

  lemma FewerEntries(o: Outcomes, done: set<Name>)
    requires done <= o.Keys && Paying(o) && AllOk(o, o.Keys)
    ensures 0 <= Sum(RewardsOf(o, done)) <= Sum(RewardsOf(o, o.Keys))
  {
    var part, rest := RewardsOf(o, done), RewardsOf(o, o.Keys - done);
    assert part + rest == RewardsOf(o, o.Keys);
    SumUnion(part, rest);
    SumNonNegative(part);
    SumNonNegative(rest);
  }

  function Rates(rows: map<Name, Producer>, keys: set<Name>): map<Name, int> {
    map p | p in keys :: ProducerRow(rows, p).rewardsPerVote
  }

  predicate Stuck(o: Outcomes, done: set<Name>, p: Name, credit: int)
    requires p in o
  {
    o[p].Err? || credit + o[p].value.reward > MAX_ASSET
  }

  // The rewards and rows of a whole pass.
  ghost function Gain(o: Outcomes): int {
    if AllOk(o, o.Keys) then Sum(RewardsOf(o, o.Keys)) else 0
  }

  function NewRows(o: Outcomes): map<Name, Producer> {
    if AllOk(o, o.Keys) then RowsOf(o, o.Keys) else map[]
  }

  // Whether a whole pass completes when `credited` was already recorded for the voter.
  ghost predicate Passes(o: Outcomes, credited: int) {
    AllOk(o, o.Keys) && credited + Gain(o) <= MAX_ASSET
  }

  lemma StuckNeverPasses(o: Outcomes, done: set<Name>, p: Name, credited: int)
    requires Paying(o) && done <= o.Keys && AllOk(o, done) && p in o && p !in done
    requires Stuck(o, done, p, credited + Sum(RewardsOf(o, done)))
    ensures !Passes(o, credited)
  {
    if AllOk(o, o.Keys) {
      OneMoreEntry(map[], o, done, p);
      FewerEntries(o, done + {p});
    }
  }

  // A pass that has handled the entries `done`: the rows, checkpoints and credit it left behind.
  ghost predicate Progress(rows: map<Name, Producer>, voted: map<Name, int>, o: Outcomes, credited: int,
                           done: set<Name>,
                           now: map<Name, Producer>, moved: map<Name, int>, credit: int)
  {
    && o.Keys == voted.Keys && done <= o.Keys && AllOk(o, done)
    && now == rows + RowsOf(o, done)
    && moved == voted + Rates(rows, done)
    && credit == credited + Sum(RewardsOf(o, done))
    && credit <= MAX_ASSET
  }

  lemma ProgressHere(rows: map<Name, Producer>, voted: map<Name, int>, o: Outcomes, credited: int, done: set<Name>,
                     now: map<Name, Producer>, moved: map<Name, int>, credit: int, p: Name)
    requires Progress(rows, voted, o, credited, done, now, moved, credit) && p in voted && p !in done
    ensures ProducerRow(now, p) == ProducerRow(rows, p) && p in moved && moved[p] == voted[p]
  {}

  lemma ProgressStep(rows: map<Name, Producer>, voted: map<Name, int>, o: Outcomes, credited: int, done: set<Name>,
                     now: map<Name, Producer>, moved: map<Name, int>, credit: int, p: Name)
    requires Progress(rows, voted, o, credited, done, now, moved, credit) && p in voted && p !in done
    requires o[p].Ok? && credit + o[p].value.reward <= MAX_ASSET
    ensures Progress(rows, voted, o, credited, done + {p}, now[p := o[p].value.row],
                     moved[p := ProducerRow(rows, p).rewardsPerVote], credit + o[p].value.reward)
  {
    OneMoreEntry(rows, o, done, p);
    OneMoreRate(rows, voted, done, p);
  }

  lemma OneMoreRate(rows: map<Name, Producer>, voted: map<Name, int>, done: set<Name>, p: Name)
    ensures voted + Rates(rows, done + {p}) == (voted + Rates(rows, done))[p := ProducerRow(rows, p).rewardsPerVote]
  {
    var next := voted + Rates(rows, done + {p});
    var step := (voted + Rates(rows, done))[p := ProducerRow(rows, p).rewardsPerVote];
    assert next.Keys == step.Keys;
    forall q | q in next ensures next[q] == step[q] {}
  }

  lemma ProgressDone(rows: map<Name, Producer>, voted: map<Name, int>, o: Outcomes, credited: int, done: set<Name>,
                     now: map<Name, Producer>, moved: map<Name, int>, credit: int)
    requires Progress(rows, voted, o, credited, done, now, moved, credit) && voted.Keys - done == {}
    ensures Passes(o, credited) && Passed(rows, voted, o, credited, now, moved, credit)
  {
    forall p | p in voted ensures p in done {
      assert p !in voted.Keys - done;
    }
    assert done == voted.Keys;
    assert voted + Rates(rows, voted.Keys) == Rates(rows, voted.Keys);
  }

  // The effect of a completed pass.
  ghost predicate Passed(rows: map<Name, Producer>, voted: map<Name, int>, o: Outcomes, credited: int,
                         now: map<Name, Producer>, moved: map<Name, int>, credit: int)
  {
    && o.Keys == voted.Keys && AllOk(o, voted.Keys)
    && now == rows + NewRows(o)
    && moved == Rates(rows, voted.Keys)
    && credit == credited + Gain(o)
  }

  // ---- passes over disjoint entries add up to one resettlement ----

  function Pieces(s: State, v: Voter, keys: set<Name>, votes: int): Outcomes {
    map p | p in v.producers.Keys + keys :: Piece(s, v, keys, votes, p)
  }

  lemma AttemptFrame(rows: map<Name, Producer>, updated: map<Name, Producer>, voted: map<Name, int>, votesOld: int,
                     votesDelta: int)
    requires updated.Keys !! voted.Keys
    ensures Attempt(rows + updated, voted, votesOld, votesDelta) == Attempt(rows, voted, votesOld, votesDelta)
    ensures Rates(rows + updated, voted.Keys) == Rates(rows, voted.Keys)
  {
    hide SettleRow;
    forall p | p in voted ensures ProducerRow(rows + updated, p) == ProducerRow(rows, p) {}
  }

  lemma UnionPasses(a: Outcomes, b: Outcomes, credited: int)
    requires a.Keys !! b.Keys && Paying(a) && Paying(b)
    ensures Passes(a + b, credited) <==> Passes(a, credited) && Passes(b, credited + Gain(a))
    ensures Passes(a + b, credited) ==> NewRows(a + b) == NewRows(a) + NewRows(b) && Gain(a + b) == Gain(a) + Gain(b)
  {
    hide SettleRow;
    var u := a + b;
    assert u.Keys == a.Keys + b.Keys;
    assert AllOk(u, u.Keys) <==> AllOk(a, a.Keys) && AllOk(b, b.Keys);
    if AllOk(u, u.Keys) {
      var ra, rb := RewardsOf(a, a.Keys), RewardsOf(b, b.Keys);
      assert RewardsOf(u, u.Keys) == ra + rb;
      assert RowsOf(u, u.Keys) == RowsOf(a, a.Keys) + RowsOf(b, b.Keys);
      SumUnion(ra, rb);
      FewerEntries(b, {});
    }
  }

  /** A pass over all entries is a resettlement on the same producers. */
  lemma OnePass(s: State, k: Name, votesDelta: int)
    ensures var v := VoterRow(s.voters, k);
            Attempt(s.producers, v.producers, v.votes, votesDelta)
                == Pieces(s, v, v.producers.Keys, v.votes + votesDelta)
  {}

  lemma PiecesMatch(s: State, v: Voter, keys: set<Name>, votes: int)
    ensures var o := Pieces(s, v, keys, votes);
            && (PiecesOk(s, v, keys, votes) <==> AllOk(o, o.Keys))
            && (AllOk(o, o.Keys) ==>
                  Rewards(s, v, keys, votes) == RewardsOf(o, o.Keys)
                    && PieceRows(s, v, keys, votes) == RowsOf(o, o.Keys))
  {
    hide SettleRow;
    assert Pieces(s, v, keys, votes).Keys == v.producers.Keys + keys;
  }

  // The tables after a completed resettlement whose settlements were `o`.
  ghost function AfterPasses(s: State, k: Name, keys: set<Name>, votes: int, rows: map<Name, Producer>,
                             gain: int): State {
    var v := VoterRow(s.voters, k);
    s.(producers := s.producers + rows,
       voters := s.voters[k := Voter(votes, Rates(s.producers, keys), v.unclaimed + gain, v.claimed)])
  }

  lemma ResettlePasses(s: State, k: Name, keys: set<Name>, votes: int)
    ensures var o := Pieces(s, VoterRow(s.voters, k), keys, votes);
            && (Resettle(s, k, keys, votes).Ok? <==> Passes(o, VoterRow(s.voters, k).unclaimed))
            && (Resettle(s, k, keys, votes).Ok? ==>
                  Resettle(s, k, keys, votes).value == AfterPasses(s, k, keys, votes, NewRows(o), Gain(o)))
  {
    hide SettleRow;
    PiecesMatch(s, VoterRow(s.voters, k), keys, votes);
    assert Checkpoints(s, keys) == Rates(s.producers, keys);
  }

  /** The entries of `voted` that stay, those that go, and the new ones. */
  ghost predicate Split(voted: map<Name, int>, keys: set<Name>, removed: map<Name, int>, kept: map<Name, int>,
                        added: map<Name, int>) {
    && removed == (map p | p in voted && p !in keys :: voted[p])
    && kept == (map p | p in voted && p in keys :: voted[p])
    && added == (map p | p in keys && p !in voted :: 0)
  }

  function Restrict(o: Outcomes, keys: set<Name>): Outcomes {
    map p | p in keys && p in o :: o[p]
  }

  ghost predicate Fits(v: Voter, keys: set<Name>, votes: int, part: map<Name, int>, votesOld: int, votesDelta: int) {
    forall p :: p in part ==>
      p in v.producers.Keys + keys && part[p] == Checkpoint(v, p)
      && votesOld == Stake(v, p) && votesDelta == VotesDelta(v, keys, votes, p)
  }

  lemma SplitFits(v: Voter, keys: set<Name>, removed: map<Name, int>, kept: map<Name, int>, added: map<Name, int>)
    requires Split(v.producers, keys, removed, kept, added)
    ensures Fits(v, keys, v.votes, removed, v.votes, -v.votes)
    ensures Fits(v, keys, v.votes, kept, v.votes, 0)
    ensures Fits(v, keys, v.votes, added, 0, v.votes)
  {}

  lemma PartOfPieces(s: State, v: Voter, keys: set<Name>, votes: int, part: map<Name, int>, votesOld: int,
                     votesDelta: int)
    requires Fits(v, keys, votes, part, votesOld, votesDelta)
    ensures Attempt(s.producers, part, votesOld, votesDelta) == Restrict(Pieces(s, v, keys, votes), part.Keys)
  {}

  lemma ThreePasses(s: State, k: Name, keys: set<Name>, removed: map<Name, int>, kept: map<Name, int>,
                    added: map<Name, int>)
    requires Split(VoterRow(s.voters, k).producers, keys, removed, kept, added)
    ensures var v := VoterRow(s.voters, k);
            Pieces(s, v, keys, v.votes) ==
              Attempt(s.producers, removed, v.votes, -v.votes) + Attempt(s.producers, kept, v.votes, 0)
              + Attempt(s.producers, added, 0, v.votes)
  {
    hide SettleRow;
    var v := VoterRow(s.voters, k);
    SplitFits(v, keys, removed, kept, added);
    PartOfPieces(s, v, keys, v.votes, removed, v.votes, -v.votes);
    PartOfPieces(s, v, keys, v.votes, kept, v.votes, 0);
    PartOfPieces(s, v, keys, v.votes, added, 0, v.votes);
    SplitKeys(v.producers, keys, removed, kept, added);
    PiecesKeys(s, v, keys, v.votes);
    RestrictParts(Pieces(s, v, keys, v.votes), Attempt(s.producers, removed, v.votes, -v.votes),
                  Attempt(s.producers, kept, v.votes, 0), Attempt(s.producers, added, 0, v.votes));
  }

  lemma PiecesKeys(s: State, v: Voter, keys: set<Name>, votes: int)
    ensures Pieces(s, v, keys, votes).Keys == v.producers.Keys + keys
  {
    hide SettleRow;
  }

  lemma SplitKeys(voted: map<Name, int>, keys: set<Name>, removed: map<Name, int>, kept: map<Name, int>,
                  added: map<Name, int>)
    requires Split(voted, keys, removed, kept, added)
    ensures removed.Keys + kept.Keys + added.Keys == voted.Keys + keys
    ensures removed.Keys !! kept.Keys && (removed.Keys + kept.Keys) !! added.Keys
    ensures kept.Keys + added.Keys == keys
  {}

  lemma RestrictParts(o: Outcomes, a: Outcomes, b: Outcomes, c: Outcomes)
    requires o.Keys == a.Keys + b.Keys + c.Keys
    requires a == Restrict(o, a.Keys) && b == Restrict(o, b.Keys) && c == Restrict(o, c.Keys)
    ensures o == a + b + c
  {
    hide SettleRow;
    assert (a + b + c).Keys == o.Keys;
  }

  // Three passes in sequence.
  ghost predicate PassThree(o1: Outcomes, o2: Outcomes, o3: Outcomes, credited: int) {
    Passes(o1, credited) && Passes(o2, credited + Gain(o1)) && Passes(o3, credited + Gain(o1) + Gain(o2))
  }

  lemma ThreeGroups(o1: Outcomes, o2: Outcomes, o3: Outcomes, credited: int)
    requires o1.Keys !! o2.Keys && (o1.Keys + o2.Keys) !! o3.Keys
    requires Paying(o1) && Paying(o2) && Paying(o3)
    ensures Passes(o1 + o2 + o3, credited) <==> PassThree(o1, o2, o3, credited)
    ensures PassThree(o1, o2, o3, credited) ==>
              && NewRows(o1 + o2 + o3) == NewRows(o1) + NewRows(o2) + NewRows(o3)
              && Gain(o1 + o2 + o3) == Gain(o1) + Gain(o2) + Gain(o3)
  {
    hide NewRows;
    hide Gain;
    UnionPasses(o1 + o2, o3, credited);
    UnionPasses(o1, o2, credited);
  }

  /** The groups of voteproducer, settled one after the other, make up one resettlement. */
  lemma GroupsResettle(s: State, k: Name, keys: set<Name>, removed: map<Name, int>, kept: map<Name, int>,
                       added: map<Name, int>,
                       o1: Outcomes, o2: Outcomes, o3: Outcomes)
    requires Split(VoterRow(s.voters, k).producers, keys, removed, kept, added)
    requires o1 == Attempt(s.producers, removed, VoterRow(s.voters, k).votes, -VoterRow(s.voters, k).votes)
    requires o2 == Attempt(s.producers, kept, VoterRow(s.voters, k).votes, 0)
    requires o3 == Attempt(s.producers, added, 0, VoterRow(s.voters, k).votes)
    ensures var v := VoterRow(s.voters, k);
            && (Resettle(s, k, keys, v.votes).Ok? <==> PassThree(o1, o2, o3, v.unclaimed))
            && (Resettle(s, k, keys, v.votes).Ok? ==>
                  Resettle(s, k, keys, v.votes).value ==
                    AfterPasses(s, k, keys, v.votes, NewRows(o1) + NewRows(o2) + NewRows(o3),
                                Gain(o1) + Gain(o2) + Gain(o3)))
  {
    hide SettleRow;
    hide Resettle;
    hide Passes;
    hide PassThree;
    hide NewRows;
    hide Gain;
    var v := VoterRow(s.voters, k);
    SplitKeys(v.producers, keys, removed, kept, added);
    ThreePasses(s, k, keys, removed, kept, added);
    ResettlePasses(s, k, keys, v.votes);
    ThreeGroups(o1, o2, o3, v.unclaimed);
  }

  lemma NewRowsKeys(o: Outcomes)
    ensures NewRows(o).Keys <= o.Keys
  {}

  lemma FrameTwice(rows: map<Name, Producer>, first: map<Name, Producer>, second: map<Name, Producer>,
                   voted: map<Name, int>, votesOld: int, votesDelta: int)
    requires (first.Keys + second.Keys) !! voted.Keys
    ensures Attempt(rows + first + second, voted, votesOld, votesDelta) == Attempt(rows, voted, votesOld, votesDelta)
    ensures Rates(rows + first + second, voted.Keys) == Rates(rows, voted.Keys)
  {
    AttemptFrame(rows + first, second, voted, votesOld, votesDelta);
    AttemptFrame(rows, first, voted, votesOld, votesDelta);
  }

  lemma RatesUnion(rows: map<Name, Producer>, a: set<Name>, b: set<Name>)
    ensures Rates(rows, a) + Rates(rows, b) == Rates(rows, a + b)
  {}

  lemma UnionRows(rows: map<Name, Producer>, a: map<Name, Producer>, b: map<Name, Producer>, c: map<Name, Producer>)
    ensures rows + a + b + c == rows + (a + b + c)
  {}

  class Reward {
    var totalRewards: int
    var producers: map<Name, Producer>
    var voters: map<Name, Voter>

    ghost function Tables(): State
      reads this
    {
      State(totalRewards, producers, voters)
    }

    constructor ()
      ensures Tables() == EMPTY
    {
      totalRewards := 0;
      producers := map[];
      voters := map[];
    }

    /** Settles the entry of `voted` for p: its row, its checkpoint and the voter's credit. */
    method SettleProducer(p: Name, votesOld: int, votesDelta: int, voted: map<Name, int>, credited: int)
      returns (ok: bool, moved: map<Name, int>, credit: int)
      requires p in voted
      modifies this`producers
      ensures var e := SettleRow(ProducerRow(old(producers), p), votesOld, votesDelta, voted[p]);
              && ok == (e.Ok? && credited + e.value.reward <= MAX_ASSET)
              && (ok ==>
                    && producers == old(producers)[p := e.value.row]
                    && moved == voted[p := ProducerRow(old(producers), p).rewardsPerVote]
                    && credit == credited + e.value.reward)
    {
      ok, moved, credit := false, voted, credited;
      var e := SettleRow(ProducerRow(producers, p), votesOld, votesDelta, voted[p]);
      if e.Ok? {
        credit := credited + e.value.reward;
        if credit <= MAX_ASSET {
          producers := producers[p := e.value.row];
          ok, moved := true, moved[p := e.value.row.rewardsPerVote];
        }
      }
    }

    /**
     * Settles every entry of `voted`, in any order, and moves its checkpoint to the current rate.
     * The result does not depend on the order in which entries are visited.
     */
    method AllocateProducerRewards(voted: map<Name, int>, votesOld: int, votesDelta: int, credited: int)
      returns (ok: bool, moved: map<Name, int>, credit: int)
      requires credited <= MAX_ASSET
      modifies this`producers
      ensures var o := Attempt(old(producers), voted, votesOld, votesDelta);
              && (ok <==> Passes(o, credited))
              && (ok ==> Passed(old(producers), voted, o, credited, producers, moved, credit))
    {
      hide SettleRow;
      ghost var rows, o := producers, Attempt(producers, voted, votesOld, votesDelta);
      ghost var done := {};
      var rest := voted.Keys;
      moved, credit := voted, credited;
      while rest != {}
        invariant done <= voted.Keys && rest == voted.Keys - done
        invariant Progress(rows, voted, o, credited, done, producers, moved, credit)
        decreases rest
      {
        var p :| p in rest;
        ProgressHere(rows, voted, o, credited, done, producers, moved, credit, p);
        if Stuck(o, done, p, credit) {
          StuckNeverPasses(o, done, p, credited);
        } else {
          ProgressStep(rows, voted, o, credited, done, producers, moved, credit, p);
        }
        assert o[p] == SettleRow(ProducerRow(producers, p), votesOld, votesDelta, moved[p]);
        ok, moved, credit := SettleProducer(p, votesOld, votesDelta, moved, credit);
        if !ok {
          return;
        }
        done := done + {p};
        rest := rest - {p};
      }
      ok := true;
      ProgressDone(rows, voted, o, credited, done, producers, moved, credit);
    }

    // Every stored asset is in range.
    ghost predicate Valid()
      reads this
    {
      forall v :: v in voters ==> voters[v].unclaimed <= MAX_ASSET
    }

    method RegisterProducer(p: Name)
      modifies this
      ensures Tables() == RegProducer(old(Tables()), p)
      ensures old(Valid()) ==> Valid()
    {
      producers := producers[p := ProducerRow(producers, p).(registered := true)];
    }

    /** One pass over all of voter k's producers, as change_vote and claim_rewards run it. */
    method SettleAll(k: Name, votesDelta: int) returns (ok: bool, moved: map<Name, int>, credit: int)
      requires Valid()
      modifies this`producers
      ensures var s := old(Tables());
              var v := VoterRow(s.voters, k);
              var r := Resettle(s, k, v.producers.Keys, v.votes + votesDelta);
              && (ok <==> r.Ok?)
              && (ok ==> credit <= MAX_ASSET && r.value == s.(producers := producers,
                           voters := s.voters[k := Voter(v.votes + votesDelta, moved, credit, v.claimed)]))
    {
      hide Resettle;
      hide SettleRow;
      var v := VoterRow(voters, k);
      ghost var s := Tables();
      hide SettleRow;
      OnePass(s, k, votesDelta);
      ResettlePasses(s, k, v.producers.Keys, v.votes + votesDelta);
      ok, moved, credit := AllocateProducerRewards(v.producers, v.votes, votesDelta, v.unclaimed);
    }

    /** addvote and subvote; an action whose checks fail leaves every table as it was. */
    method ChangeVotes(k: Name, votes: int, adding: bool) returns (ok: bool)
      requires Valid()
      modifies this
      ensures Valid()
      ensures ok <==> ChangeVote(old(Tables()), k, votes, adding).Ok?
      ensures Tables() == if ok then ChangeVote(old(Tables()), k, votes, adding).value else old(Tables())
    {
      hide Resettle;
      hide SettleRow;
      if votes <= 0 {
        return false;
      }
      var v := VoterRow(voters, k);
      var delta := votes;
      if !adding {
        if v.votes < votes {
          return false;
        }
        delta := -votes;
      }
      var saved := producers;
      var moved, credit;
      ok, moved, credit := SettleAll(k, delta);
      if ok {
        var updated := Int64(v.votes + delta);
        if updated >= 0 {
          voters := voters[k := Voter(updated, moved, credit, v.claimed)];
        } else {
          ok := false;
        }
      }
      if !ok {
        producers := saved;
      }
    }

    /** voteproducer: merge the voter's old producers with the new list, then settle the three groups. */
    method VoteProducers(k: Name, list: seq<Name>) returns (ok: bool)
      requires Valid()
      modifies this
      ensures Valid()
      ensures ok <==> VoteProducer(old(Tables()), k, list).Ok?
      ensures Tables() == if ok then VoteProducer(old(Tables()), k, list).value else old(Tables())
    {
      var sorted := IsStrictlySorted(list);
      if !sorted {
        return false;
      }
      var v := VoterRow(voters, k);
      var saved := producers;
      var removed, kept, added := MergeProducers(v.producers, list);
      var moved, credit;
      ok, moved, credit := SettleSplit(k, Elements(list), removed, kept, added);
      if ok {
        voters := voters[k := Voter(v.votes, moved, credit, v.claimed)];
      } else {
        producers := saved;
      }
    }

    /** The three passes of voteproducer together resettle the voter on its new producers. */
    method SettleSplit(k: Name, ghost keys: set<Name>, removed: map<Name, int>, kept: map<Name, int>,
                       added: map<Name, int>)
      returns (ok: bool, moved: map<Name, int>, credit: int)
      requires Valid() && Split(VoterRow(voters, k).producers, keys, removed, kept, added)
      modifies this`producers
      ensures var s := old(Tables());
              var v := VoterRow(s.voters, k);
              var r := Resettle(s, k, keys, v.votes);
              && (ok <==> r.Ok?)
              && (ok ==> credit <= MAX_ASSET && r.value == s.(producers := producers,
                           voters := s.voters[k := Voter(v.votes, moved, credit, v.claimed)]))
    {
      hide Rates;
      hide AllOk;
      hide Paying;
      hide Resettle;
      hide SettleRow;
      hide Attempt;
      hide Split;
      hide NewRows;
      hide Gain;
      var v := VoterRow(voters, k);
      ghost var s := Tables();
      ghost var o1 := Attempt(s.producers, removed, v.votes, -v.votes);
      ghost var o2 := Attempt(s.producers, kept, v.votes, 0);
      ghost var o3 := Attempt(s.producers, added, 0, v.votes);
      SplitKeys(v.producers, keys, removed, kept, added);
      GroupsResettle(s, k, keys, removed, kept, added, o1, o2, o3);
      moved, credit := map[], v.unclaimed;
      var gone, stayed, joined;
      ok, gone, credit := AllocateProducerRewards(removed, v.votes, -v.votes, credit);
      if ok {
        NewRowsKeys(o1);
        AttemptFrame(s.producers, NewRows(o1), kept, v.votes, 0);
        ok, stayed, credit := AllocateProducerRewards(kept, v.votes, 0, credit);
        if ok {
          NewRowsKeys(o2);
          FrameTwice(s.producers, NewRows(o1), NewRows(o2), added, 0, v.votes);
          ok, joined, credit := AllocateProducerRewards(added, 0, v.votes, credit);
          if ok {
            moved := stayed + joined;
            RatesUnion(s.producers, kept.Keys, added.Keys);
            UnionRows(s.producers, NewRows(o1), NewRows(o2), NewRows(o3));
          }
        }
      }
    }

    /** claim_rewards: settle, then pay out everything recorded; `paid` is the amount transferred. */
    method ClaimRewards(k: Name) returns (ok: bool, paid: int)
      requires Valid()
      modifies this
      ensures Valid()
      ensures ok <==> Claim(old(Tables()), k).Ok?
      ensures ok ==> Claim(old(Tables()), k).value == (Tables(), paid)
      ensures !ok ==> Tables() == old(Tables())
    {
      hide Resettle;
      paid := 0;
      if k !in voters {
        return false, paid;
      }
      var v := voters[k];
      var saved := producers;
      ok := true;
      var moved, credit := v.producers, v.unclaimed;
      if v.votes > 0 {
        ok, moved, credit := SettleAll(k, 0);
      }
      if ok && credit > 0 && v.claimed + credit <= MAX_ASSET {
        paid := credit;
        assert voters[k := Voter(v.votes, moved, credit, v.claimed)][k := Voter(v.votes, moved, 0, v.claimed + credit)]
            == voters[k := Voter(v.votes, moved, 0, v.claimed + credit)];
        voters := voters[k := Voter(v.votes, moved, 0, v.claimed + credit)];
      } else {
        ok := false;
        producers := saved;
      }
    }

    /** ontransfer for core tokens arriving from another account. */
    method OnTransfer(from: Name, amount: int) returns (ok: bool)
      modifies this
      ensures old(Valid()) ==> Valid()
      ensures ok <==> Deposit(old(Tables()), from, amount).Ok?
      ensures Tables() == if ok then Deposit(old(Tables()), from, amount).value else old(Tables())
    {
      var saved := totalRewards;
      if totalRewards + amount > MAX_ASSET {
        return false;
      }
      totalRewards := totalRewards + amount;
      ok := false;
      if from in producers && producers[from].registered {
        var p := producers[from];
        if p.totalRewards + amount <= MAX_ASSET && p.allocatingRewards + amount <= MAX_ASSET {
          var rate := RewardsPerVote(p.rewardsPerVote, amount, p.votes);
          if rate.Ok? {
            producers := producers[from := p.(totalRewards := p.totalRewards + amount,
                                              allocatingRewards := p.allocatingRewards + amount,
                                              rewardsPerVote := rate.value)];
            ok := true;
          }
        }
      }
      if !ok {
        totalRewards := saved;
      }
    }
  }

  /** The keys of a std::map in iteration order. */
  method KeysInOrder(m: map<Name, int>) returns (keys: seq<Name>)
    ensures StrictlySorted(keys) && Elements(keys) == m.Keys
  {
    keys := [];
    var rest := m.Keys;
    while rest != {}
      invariant rest <= m.Keys && Elements(keys) == m.Keys - rest
      invariant StrictlySorted(keys)
      invariant forall i, r :: 0 <= i < |keys| && r in rest ==> keys[i] < r
      decreases rest
    {
      var least := Least(rest);
      ElementsAppend(keys, least);
      keys := keys + [least];
      rest := rest - {least};
    }
  }

  method Least(s: set<Name>) returns (least: Name)
    requires s != {}
    ensures least in s && forall x :: x in s ==> least <= x
  {
    var rest := s;
    least :| least in s;
    while rest != {}
      invariant rest <= s && least in s
      invariant forall x :: x in s && x !in rest ==> least <= x
      decreases rest
    {
      var x :| x in rest;
      if x < least {
        least := x;
      }
      rest := rest - {x};
    }
  }

  // Among the handled old keys, those not in the new list; among the handled new names, those not voted yet.
  ghost function Gone(voted: map<Name, int>, handled: set<Name>, list: set<Name>): map<Name, int> {
    map p | p in voted && p in handled && p !in list :: voted[p]
  }

  ghost function Fresh(voted: map<Name, int>, handled: set<Name>): map<Name, int> {
    map p | p in handled && p !in voted :: 0
  }

  lemma GoneStep(voted: map<Name, int>, handled: set<Name>, list: set<Name>, p: Name)
    requires p in voted
    ensures Gone(voted, handled + {p}, list) ==
              if p in list then Gone(voted, handled, list) else Gone(voted, handled, list)[p := voted[p]]
  {}

  lemma FreshStep(voted: map<Name, int>, handled: set<Name>, p: Name)
    ensures Fresh(voted, handled + {p}) == if p in voted then Fresh(voted, handled) else Fresh(voted, handled)[p := 0]
  {}

  // The merge has passed olds[..i] and list[..j]; everything passed is below everything pending.
  ghost predicate Merging(olds: seq<Name>, list: seq<Name>, i: nat, j: nat) {
    && StrictlySorted(olds) && StrictlySorted(list) && i <= |olds| && j <= |list|
    && (forall a, b :: 0 <= a < i && j <= b < |list| ==> olds[a] < list[b])
    && (forall a, b :: i <= a < |olds| && 0 <= b < j ==> list[b] < olds[a])
  }

  // What the merge has collected after passing olds[..i] and list[..j].
  ghost predicate Merged(voted: map<Name, int>, olds: seq<Name>, list: seq<Name>, i: nat, j: nat,
                         removed: map<Name, int>, kept: map<Name, int>, added: map<Name, int>)
  {
    && Merging(olds, list, i, j) && Elements(olds) == voted.Keys
    && removed == Gone(voted, Elements(olds[..i]), Elements(list))
    && kept == voted - removed.Keys
    && added == Fresh(voted, Elements(list[..j]))
  }

  lemma OldOnly(voted: map<Name, int>, olds: seq<Name>, list: seq<Name>, i: nat, j: nat,
                removed: map<Name, int>, kept: map<Name, int>, added: map<Name, int>)
    requires Merged(voted, olds, list, i, j, removed, kept, added)
    requires i < |olds| && (j == |list| || olds[i] < list[j])
    ensures olds[i] in kept
    ensures Merged(voted, olds, list, i + 1, j, removed[olds[i] := kept[olds[i]]], kept - {olds[i]}, added)
  {
    ElementsStep(olds, i);
    assert olds[i] in Elements(olds) && olds[i] !in Elements(olds[..i]) && olds[i] !in list;
    GoneStep(voted, Elements(olds[..i]), Elements(list), olds[i]);
  }

  lemma NewOnly(voted: map<Name, int>, olds: seq<Name>, list: seq<Name>, i: nat, j: nat,
                removed: map<Name, int>, kept: map<Name, int>, added: map<Name, int>)
    requires Merged(voted, olds, list, i, j, removed, kept, added)
    requires j < |list| && (i == |olds| || list[j] < olds[i])
    ensures Merged(voted, olds, list, i, j + 1, removed, kept, added[list[j] := 0])
  {
    ElementsStep(list, j);
    assert list[j] !in Elements(olds);
    FreshStep(voted, Elements(list[..j]), list[j]);
  }

  lemma Both(voted: map<Name, int>, olds: seq<Name>, list: seq<Name>, i: nat, j: nat,
             removed: map<Name, int>, kept: map<Name, int>, added: map<Name, int>)
    requires Merged(voted, olds, list, i, j, removed, kept, added)
    requires i < |olds| && j < |list| && olds[i] == list[j]
    ensures Merged(voted, olds, list, i + 1, j + 1, removed, kept, added)
  {
    ElementsStep(olds, i);
    ElementsStep(list, j);
    assert olds[i] in Elements(olds) && list[j] in Elements(list);
    GoneStep(voted, Elements(olds[..i]), Elements(list), olds[i]);
    FreshStep(voted, Elements(list[..j]), list[j]);
  }

  lemma MergeStart(voted: map<Name, int>, olds: seq<Name>, list: seq<Name>)
    requires StrictlySorted(olds) && StrictlySorted(list) && Elements(olds) == voted.Keys
    ensures Merged(voted, olds, list, 0, 0, map[], voted, map[])
  {}

  lemma MergeEnd(voted: map<Name, int>, olds: seq<Name>, list: seq<Name>,
                 removed: map<Name, int>, kept: map<Name, int>, added: map<Name, int>)
    requires Merged(voted, olds, list, |olds|, |list|, removed, kept, added)
    ensures Split(voted, Elements(list), removed, kept, added)
  {
    hide Merging, Split;
    assert olds[..|olds|] == olds && list[..|list|] == list;
    AllHandled(voted, Elements(list));
  }

  lemma AllHandled(voted: map<Name, int>, keys: set<Name>)
    ensures Split(voted, keys, Gone(voted, voted.Keys, keys), voted - Gone(voted, voted.Keys, keys).Keys,
                  Fresh(voted, keys))
  {
    var stay := map p | p in voted && p in keys :: voted[p];
    var left := voted - Gone(voted, voted.Keys, keys).Keys;
    assert stay.Keys == left.Keys;
    assert stay == left;
  }

  /**
   * The merge loop of voteproducer over the voter's map and the sorted new list: it splits them into
   * the producers that go (with their checkpoints), those that stay, and the new ones at checkpoint 0.
   */
  method MergeProducers(voted: map<Name, int>, list: seq<Name>)
    returns (removed: map<Name, int>, kept: map<Name, int>, added: map<Name, int>)
    requires StrictlySorted(list)
    ensures Split(voted, Elements(list), removed, kept, added)
  {
    hide Merged;
    removed, kept, added := map[], voted, map[];
    var olds := KeysInOrder(voted);
    var i, j := 0, 0;
    MergeStart(voted, olds, list);
    while i < |olds| || j < |list|
      invariant 0 <= i <= |olds| && 0 <= j <= |list|
      invariant Merged(voted, olds, list, i, j, removed, kept, added)
      decreases |olds| - i + |list| - j
    {
      if i < |olds| && (j == |list| || olds[i] < list[j]) {
        OldOnly(voted, olds, list, i, j, removed, kept, added);
        removed, kept := removed[olds[i] := kept[olds[i]]], kept - {olds[i]};
        i := i + 1;
      } else if j < |list| && (i == |olds| || list[j] < olds[i]) {
        NewOnly(voted, olds, list, i, j, removed, kept, added);
        added := added[list[j] := 0];
        j := j + 1;
      } else {
        Both(voted, olds, list, i, j, removed, kept, added);
        i, j := i + 1, j + 1;
      }
    }
    MergeEnd(voted, olds, list, removed, kept, added);
  }
}
