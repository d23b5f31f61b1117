/** Coupling and custody across the three contracts are kept by every transaction. */
module WorldProofs {
  import opened Common
  import opened Sums
  import opened World
  import Votes = VoteSpec
  import Rewards = RewardSpec
  import opened RewardInvariant
  import Actions = RewardActions
  import Token

  // ---- the reward side of a settlement, as the coupling sees it ----

  lemma ResettleView(s: Rewards.State, k: Name, keys: set<Name>, votes: int)
    ensures var t := AfterResettle(s, k, keys, votes);
            var v := Rewards.VoterRow(s.voters, k);
            && t.totalRewards == s.totalRewards
            && t.voters == s.voters[k := t.voters[k]]
            && t.voters[k].votes == votes && t.voters[k].producers.Keys == keys
            && Sum(AllVotes(t.voters)) == Sum(AllVotes(s.voters)) - v.votes + votes
            && Sum(Claimed(t.voters)) == Sum(Claimed(s.voters))
    ensures forall p :: Rewards.ProducerRow(AfterResettle(s, k, keys, votes).producers, p).votes
                     == Rewards.ProducerRow(s.producers, p).votes
                         + Rewards.VotesDelta(Rewards.VoterRow(s.voters, k), keys, votes, p)
  {
    hide Debt;
    var t := AfterResettle(s, k, keys, votes);
    ReplaceVoterBooks(s.voters, k, t.voters[k]);
    ReplaceClaimed(s.voters, k, t.voters[k]);
    forall p
      ensures Rewards.ProducerRow(t.producers, p).votes
           == Rewards.ProducerRow(s.producers, p).votes
               + Rewards.VotesDelta(Rewards.VoterRow(s.voters, k), keys, votes, p)
    {
      SettledRow(s, k, keys, votes, p);
    }
  }

  lemma ReplaceClaimed(voters: map<Name, Rewards.Voter>, k: Name, v: Rewards.Voter)
    ensures Sum(Claimed(voters[k := v])) == Sum(Claimed(voters)) - Rewards.VoterRow(voters, k).claimed + v.claimed
  {
    assert Claimed(voters[k := v]) == Claimed(voters)[k := v.claimed];
    SumUpdate(Claimed(voters), k, v.claimed);
  }

  // ---- producer totals of the system contract ----

  /** The totals stay far inside 64 bits, so update_producer_votes never sees a negative total. */
  lemma TotalBounds(w: World, p: Name)
    requires WorldOk(w)
    ensures 0 <= Total(w.votes.producers, p) <= w.votes.totalStake <= MAX_ASSET
  {
    RowBounds(w.rewards, p);
  }

  lemma StakeBounds(w: World, k: Name, p: Name)
    requires WorldOk(w) && k in w.votes.voters && p in Elements(w.votes.voters[k].producers)
    ensures p in w.votes.producers
    ensures 0 <= w.votes.voters[k].votes <= Total(w.votes.producers, p) <= MAX_ASSET
  {
    assert VoterCoupled(w, k);
    VoterShare(w.rewards, k, p);
    RowBounds(w.rewards, p);
  }

  predicate AllActive(producers: map<Name, Votes.Producer>, keys: set<Name>) {
    forall p <- keys :: p in producers && producers[p].active
  }

  // Adding `delta` (of either sign) to the totals of `keys`.
  ghost predicate Shifted(before: map<Name, Votes.Producer>, after: map<Name, Votes.Producer>, keys: set<Name>,
                          delta: int) {
    && after.Keys == before.Keys
    && (forall p :: p in before ==> after[p].active == before[p].active)
    && forall p :: Total(after, p) == Total(before, p) + if p in keys && p in before then delta else 0
  }

  lemma UpdateShifts(producers: map<Name, Votes.Producer>, keys: set<Name>, delta: int)
    requires keys <= producers.Keys
    requires forall p :: p in keys ==> 0 <= producers[p].totalVotes + delta <= INT64_MAX
    ensures Votes.CanUpdate(producers, keys, delta) <==> (delta > 0 ==> AllActive(producers, keys))
    ensures Shifted(producers, Votes.Updated(producers, keys, delta), keys, delta)
  {}

  // ---- payments ----

  lemma PayUsers(w: World, from: Name, to: Name, amount: int)
    requires Token.LedgerOk(w.ledger) && to != REWARD_ACCOUNT
    ensures Pay(w, from, to, amount).Ok? <==>
              from != to && to in w.ledger.accounts && 0 < amount <= Token.Balance(w.ledger, from)
    ensures Pay(w, from, to, amount).Ok? ==>
              var x := Pay(w, from, to, amount).value;
              && x == w.(ledger := x.ledger)
              && Token.LedgerOk(x.ledger) && Moved(w.ledger, x.ledger, from, to, amount)
  {
    Token.TransferLedger(w.ledger, from, to, amount);
  }

  ghost predicate Moved(l: Token.Ledger, m: Token.Ledger, from: Name, to: Name, amount: int) {
    && m.accounts == l.accounts && m.issuer == l.issuer
    && forall a :: Token.Balance(m, a)
         == Token.Balance(l, a) - (if a == from then amount else 0) + (if a == to then amount else 0)
  }

  // The coupling after voter k was resettled on both sides.
  lemma CoupledAfter(w: World, x: World, k: Name, list: seq<Name>, votes: int)
    requires Coupled(w) && User(k) && k in w.ledger.accounts && x.ledger.accounts == w.ledger.accounts
    requires x.rewards == AfterResettle(w.rewards, k, Elements(list), votes)
    requires x.votes.voters == w.votes.voters[k := Votes.Voter(votes, list)]
    requires StrictlySorted(list) && Elements(list) <= w.votes.producers.Keys
             && x.votes.producers.Keys == w.votes.producers.Keys
    requires x.votes.totalStake == w.votes.totalStake - Rewards.VoterRow(w.rewards.voters, k).votes + votes
    requires forall p :: Total(x.votes.producers, p) == Total(w.votes.producers, p)
               + Rewards.VotesDelta(Rewards.VoterRow(w.rewards.voters, k), Elements(list), votes, p)
    ensures Coupled(x)
  {
    hide AfterResettle;
    hide Debt;
    ResettleView(w.rewards, k, Elements(list), votes);
    forall j ensures VoterCoupled(x, j) {
      assert VoterCoupled(w, j);
      if j != k {
        assert x.rewards.voters[k := x.rewards.voters[k]] == x.rewards.voters;
      }
    }
    forall p ensures Total(x.votes.producers, p) == Rewards.ProducerRow(x.rewards.producers, p).votes {
      assert Total(w.votes.producers, p) == Rewards.ProducerRow(w.rewards.producers, p).votes;
    }
  }

  lemma VoterView(w: World, k: Name)
    requires Coupled(w)
    ensures var v := SystemVoter(w, k);
            && v.votes == Rewards.VoterRow(w.rewards.voters, k).votes
            && Elements(v.producers) == Rewards.VoterRow(w.rewards.voters, k).producers.Keys
            && StrictlySorted(v.producers) && Elements(v.producers) <= w.votes.producers.Keys
  {
    assert VoterCoupled(w, k);
  }

  lemma VotesBounds(w: World, k: Name)
    requires WorldOk(w)
    ensures 0 <= SystemVoter(w, k).votes <= w.votes.totalStake <= MAX_ASSET
  {
    VoterView(w, k);
    Actions.VotesTerm(w.rewards, k);
  }

  // ---- addvote ----

  /** The system half of addvote under the invariants. */
  lemma AddVoteSystem(w: World, k: Name, amount: int)
    requires WorldOk(w) && w.votes.totalStake + amount <= MAX_ASSET
    ensures Votes.AddVote(w.votes, k, amount).Ok? <==>
              amount > 0 && AllActive(w.votes.producers, Elements(SystemVoter(w, k).producers))
    ensures Votes.AddVote(w.votes, k, amount).Ok? ==>
              var v := SystemVoter(w, k);
              var x := Votes.AddVote(w.votes, k, amount).value;
              && x == w.votes.(totalStake := w.votes.totalStake + amount, producers := x.producers,
                               voters := w.votes.voters[k := Votes.Voter(v.votes + amount, v.producers)])
              && Shifted(w.votes.producers, x.producers, Elements(v.producers), amount)
  {
    hide WorldOk;
    if amount > 0 {
      var v := SystemVoter(w, k);
      VotesBounds(w, k);
      assert Elements([]) == {};
      forall p | p in Elements(v.producers)
        ensures p in w.votes.producers && 0 <= w.votes.producers[p].totalVotes + amount <= INT64_MAX
      {
        StakeBounds(w, k, p);
        TotalBounds(w, p);
      }
      UpdateShifts(w.votes.producers, Elements(v.producers), amount);
    }
  }

  lemma CoupledParts(w: World)
    requires WorldOk(w)
    ensures Solvent(w.rewards) && Token.LedgerOk(w.ledger) && Coupled(w) && Custody(w)
    ensures w.votes.totalStake == Sum(AllVotes(w.rewards.voters))
  {}

  lemma StakeFits(w: World, k: Name, amount: int)
    requires WorldOk(w) && User(k) && amount <= Token.Balance(w.ledger, k)
    ensures w.votes.totalStake + amount <= MAX_ASSET
  {
    hide Solvent;
    hide Coupled;
    Token.TwoBalances(w.ledger, VOTE_ACCOUNT, k);
    StakedPositive(w);
  }

  lemma StakedPositive(w: World)
    requires Custody(w)
    ensures Sum(Staked(w.votes.refunds)) >= 0
  {
    SumNonNegative(Staked(w.votes.refunds));
  }

  ghost predicate Supporting(w: World, k: Name) {
    AllActive(w.votes.producers, Elements(SystemVoter(w, k).producers))
  }

  lemma WorldFrom(w: World)
    requires Solvent(w.rewards) && Token.LedgerOk(w.ledger) && Coupled(w) && Custody(w)
    ensures WorldOk(w)
  {}

  ghost function Added(w: World, k: Name, amount: int): World
    requires Votes.AddVote(w.votes, k, amount).Ok? && Pay(w, k, VOTE_ACCOUNT, amount).Ok?
  {
    World(Votes.AddVote(w.votes, k, amount).value, Actions.AfterChange(w.rewards, k, amount, true),
          Pay(w, k, VOTE_ACCOUNT, amount).value.ledger)
  }

  lemma AddVoteCoupled(w: World, k: Name, amount: int)
    requires WorldOk(w) && User(k) && k in w.ledger.accounts
    requires w.votes.totalStake + amount <= MAX_ASSET && Votes.AddVote(w.votes, k, amount).Ok?
    requires Pay(w, k, VOTE_ACCOUNT, amount).Ok?
    ensures Coupled(Added(w, k, amount))
    ensures SystemVoter(Added(w, k, amount), k).votes == SystemVoter(w, k).votes + amount
  {
    hide WorldOk;
    hide Solvent;
    hide Coupled;
    hide Votes.AddVote;
    hide AfterResettle;
    hide Custody;
    CoupledParts(w);
    var v := SystemVoter(w, k);
    VoterView(w, k);
    AddVoteSystem(w, k, amount);
    PayUsers(w, k, VOTE_ACCOUNT, amount);
    CoupledAfter(w, Added(w, k, amount), k, v.producers, v.votes + amount);
  }

  lemma AddVoteCustody(w: World, k: Name, amount: int)
    requires WorldOk(w) && User(k)
    requires w.votes.totalStake + amount <= MAX_ASSET && Votes.AddVote(w.votes, k, amount).Ok?
    requires Pay(w, k, VOTE_ACCOUNT, amount).Ok?
    ensures var x := Added(w, k, amount);
            && Custody(x) && Token.LedgerOk(x.ledger)
            && VoteSlack(x) == VoteSlack(w) && RewardSlack(x) == RewardSlack(w)
  {
    hide Shifted;
    hide AllActive;
    hide WorldOk;
    hide Solvent;
    hide Coupled;
    hide Votes.AddVote;
    hide AfterResettle;
    hide Pay;
    CoupledParts(w);
    var v := SystemVoter(w, k);
    AddVoteSystem(w, k, amount);
    PayUsers(w, k, VOTE_ACCOUNT, amount);
    ResettleView(w.rewards, k, Rewards.VoterRow(w.rewards.voters, k).producers.Keys,
                 Rewards.VoterRow(w.rewards.voters, k).votes + amount);
  }

  /**
   * addvote succeeds exactly when the voter has the tokens and all its producers are active; no
   * inline action is ever rejected for another reason, and coupling and custody survive.
   */
  lemma AddVoteWorld(w: World, k: Name, amount: int)
    requires WorldOk(w) && User(k) && k in w.ledger.accounts
    ensures AddVote(w, k, amount).Ok? <==> 0 < amount <= Token.Balance(w.ledger, k) && Supporting(w, k)
    ensures AddVote(w, k, amount).Ok? ==>
              var x := AddVote(w, k, amount).value;
              && WorldOk(x) && VoteSlack(x) == VoteSlack(w) && RewardSlack(x) == RewardSlack(w)
              && SystemVoter(x, k).votes == SystemVoter(w, k).votes + amount
              && x.votes.refunds == w.votes.refunds
              && Token.Balance(x.ledger, k) == Token.Balance(w.ledger, k) - amount
  {
    hide WorldOk;
    hide Solvent;
    hide Coupled;
    hide Votes.AddVote;
    hide Rewards.ChangeVote;
    CoupledParts(w);
    PayUsers(w, k, VOTE_ACCOUNT, amount);
    if amount <= Token.Balance(w.ledger, k) {
      StakeFits(w, k, amount);
      AddVoteSystem(w, k, amount);
      Actions.ChangeVoteSolvent(w.rewards, k, amount, true);
    }
    if AddVote(w, k, amount).Ok? {
      AddVoteCoupled(w, k, amount);
      AddVoteCustody(w, k, amount);
      WorldFrom(Added(w, k, amount));
    }
  }

  // ---- subvote ----

  lemma SubVoteSystem(w: World, k: Name, amount: int, now: int)
    requires WorldOk(w)
    ensures Votes.SubVote(w.votes, k, amount, now).Ok? <==>
              && w.votes.electionActivated != 0 && w.votes.electionActivated <= now
              && k in w.votes.voters && 0 < amount <= w.votes.voters[k].votes && k !in w.votes.refunds
    ensures Votes.SubVote(w.votes, k, amount, now).Ok? ==>
              var v := w.votes.voters[k];
              var x := Votes.SubVote(w.votes, k, amount, now).value;
              && x == w.votes.(totalStake := w.votes.totalStake - amount, producers := x.producers,
                               voters := w.votes.voters[k := Votes.Voter(v.votes - amount, v.producers)],
                               refunds := w.votes.refunds[k := Votes.Refund(amount, now / Votes.MICROSECONDS)])
              && Shifted(w.votes.producers, x.producers, Elements(v.producers), -amount)
  {
    hide WorldOk;
    if k in w.votes.voters && 0 < amount <= w.votes.voters[k].votes {
      var v := w.votes.voters[k];
      VotesBounds(w, k);
      forall p | p in Elements(v.producers)
        ensures p in w.votes.producers && 0 <= w.votes.producers[p].totalVotes - amount <= INT64_MAX
      {
        StakeBounds(w, k, p);
        TotalBounds(w, p);
      }
      UpdateShifts(w.votes.producers, Elements(v.producers), -amount);
    }
  }

  ghost function Subtracted(w: World, k: Name, amount: int, now: int): World
    requires Votes.SubVote(w.votes, k, amount, now).Ok?
  {
    World(Votes.SubVote(w.votes, k, amount, now).value, Actions.AfterChange(w.rewards, k, amount, false), w.ledger)
  }

  lemma SubVoteCoupled(w: World, k: Name, amount: int, now: int)
    requires WorldOk(w) && Votes.SubVote(w.votes, k, amount, now).Ok?
    ensures Coupled(Subtracted(w, k, amount, now))
  {
    hide WorldOk;
    hide Solvent;
    hide Coupled;
    hide Votes.SubVote;
    hide AfterResettle;
    hide Custody;
    CoupledParts(w);
    SubVoteSystem(w, k, amount, now);
    var v := w.votes.voters[k];
    VoterView(w, k);
    KnownVoter(w, k);
    CoupledAfter(w, Subtracted(w, k, amount, now), k, v.producers, v.votes - amount);
  }

  lemma KnownVoter(w: World, k: Name)
    requires Coupled(w) && k in w.votes.voters
    ensures User(k) && k in w.ledger.accounts && k in w.rewards.voters
  {
    assert VoterCoupled(w, k);
  }

  lemma SubVoteSlack(w: World, k: Name, amount: int, now: int)
    requires WorldOk(w) && Votes.SubVote(w.votes, k, amount, now).Ok?
    ensures var x := Subtracted(w, k, amount, now);
            VoteSlack(x) == VoteSlack(w) && RewardSlack(x) == RewardSlack(w)
  {
    hide WorldOk;
    hide Votes.SubVote;
    hide AfterResettle;
    hide Shifted;
    hide Staked;
    hide AllActive;
    hide Claimed;
    SubVoteSystem(w, k, amount, now);
    var x := Subtracted(w, k, amount, now);
    ResettleView(w.rewards, k, Rewards.VoterRow(w.rewards.voters, k).producers.Keys,
                 Rewards.VoterRow(w.rewards.voters, k).votes - amount);
    RefundAdded(w.votes.refunds, k, x.votes.refunds[k]);
  }

  lemma SubVoteCustody(w: World, k: Name, amount: int, now: int)
    requires WorldOk(w) && Votes.SubVote(w.votes, k, amount, now).Ok?
    ensures Custody(Subtracted(w, k, amount, now))
  {
    hide WorldOk;
    hide Solvent;
    hide Coupled;
    hide Votes.SubVote;
    hide VoteSlack;
    hide RewardSlack;
    hide Shifted;
    CoupledParts(w);
    SubVoteSystem(w, k, amount, now);
    SubVoteSlack(w, k, amount, now);
  }

  lemma RefundAdded(refunds: map<Name, Votes.Refund>, k: Name, r: Votes.Refund)
    requires k !in refunds
    ensures Sum(Staked(refunds[k := r])) == Sum(Staked(refunds)) + r.staked
  {
    assert Staked(refunds[k := r]) == Staked(refunds)[k := r.staked];
    SumUpdate(Staked(refunds), k, r.staked);
  }

  /** subvote succeeds exactly on the system contract's own conditions; the stake becomes a refund. */
  lemma SubVoteWorld(w: World, k: Name, amount: int, now: int)
    requires WorldOk(w)
    ensures SubVote(w, k, amount, now).Ok? <==>
              && w.votes.electionActivated != 0 && w.votes.electionActivated <= now
              && k in w.votes.voters && 0 < amount <= w.votes.voters[k].votes && k !in w.votes.refunds
    ensures SubVote(w, k, amount, now).Ok? ==>
              var x := SubVote(w, k, amount, now).value;
              && WorldOk(x) && VoteSlack(x) == VoteSlack(w) && RewardSlack(x) == RewardSlack(w)
              && x.votes.voters[k].votes == w.votes.voters[k].votes - amount
              && x.votes.refunds == w.votes.refunds[k := Votes.Refund(amount, now / Votes.MICROSECONDS)]
              && x.ledger == w.ledger
  {
    hide WorldOk;
    hide Solvent;
    hide Coupled;
    hide Custody;
    hide Votes.SubVote;
    hide Rewards.ChangeVote;
    CoupledParts(w);
    SubVoteSystem(w, k, amount, now);
    if Votes.SubVote(w.votes, k, amount, now).Ok? {
      VoterView(w, k);
      Actions.ChangeVoteSolvent(w.rewards, k, amount, false);
      SubVoteCoupled(w, k, amount, now);
      SubVoteSlack(w, k, amount, now);
      SubVoteCustody(w, k, amount, now);
      WorldFrom(Subtracted(w, k, amount, now));
    }
  }

  // ---- voteproducer ----

  ghost predicate CanVoteFor(w: World, k: Name, list: seq<Name>) {
    && |list| <= 30 && StrictlySorted(list)
    && k in w.votes.voters && w.votes.voters[k].producers != list
    && Elements(list) <= w.votes.producers.Keys
    && (w.votes.voters[k].votes > 0 ==> AllActive(w.votes.producers, Elements(list)))
  }

  lemma RemoveVotes(w: World, k: Name)
    requires WorldOk(w) && k in w.votes.voters
    ensures var v := w.votes.voters[k];
            && Votes.CanUpdate(w.votes.producers, Elements(v.producers), -v.votes)
            && Shifted(w.votes.producers, Votes.Updated(w.votes.producers, Elements(v.producers), -v.votes),
                       Elements(v.producers), -v.votes)
            && WithinAsset(Votes.Updated(w.votes.producers, Elements(v.producers), -v.votes))
  {
    hide WorldOk;
    var v := w.votes.voters[k];
    VotesBounds(w, k);
    forall p | p in Elements(v.producers)
      ensures p in w.votes.producers && 0 <= w.votes.producers[p].totalVotes - v.votes <= MAX_ASSET
    {
      StakeBounds(w, k, p);
      TotalBounds(w, p);
    }
    UpdateShifts(w.votes.producers, Elements(v.producers), -v.votes);
    forall p ensures 0 <= Total(w.votes.producers, p) <= MAX_ASSET {
      TotalBounds(w, p);
    }
  }

  ghost predicate WithinAsset(producers: map<Name, Votes.Producer>) {
    forall p :: p in producers ==> 0 <= producers[p].totalVotes <= MAX_ASSET
  }

  lemma GiveVotes(without: map<Name, Votes.Producer>, keys: set<Name>, votes: int)
    requires WithinAsset(without) && 0 <= votes <= MAX_ASSET
    ensures Votes.CanUpdate(without, keys, votes) <==>
              keys <= without.Keys && (votes > 0 ==> AllActive(without, keys))
    ensures keys <= without.Keys ==> Shifted(without, Votes.Updated(without, keys, votes), keys, votes)
  {
    if keys <= without.Keys {
      UpdateShifts(without, keys, votes);
    }
  }

  // The producer tables before and after `votes` votes moved from `olds` to `news`.
  ghost predicate VotesMoved(before: map<Name, Votes.Producer>, after: map<Name, Votes.Producer>,
                             olds: seq<Name>, news: seq<Name>, votes: int)
  {
    && after.Keys == before.Keys
    && forall p :: Total(after, p)
         == Total(before, p) + votes * ((if p in news then 1 else 0) - (if p in olds then 1 else 0))
  }

  lemma ShiftTwice(before: map<Name, Votes.Producer>, without: map<Name, Votes.Producer>,
                   after: map<Name, Votes.Producer>,
                   olds: seq<Name>, news: seq<Name>, votes: int)
    requires Elements(olds) <= before.Keys && Elements(news) <= before.Keys
    requires Shifted(before, without, Elements(olds), -votes) && Shifted(without, after, Elements(news), votes)
    ensures VotesMoved(before, after, olds, news, votes)
  {}

  lemma ShiftKeepsActive(before: map<Name, Votes.Producer>, after: map<Name, Votes.Producer>, moved: set<Name>,
                         delta: int, keys: set<Name>)
    requires Shifted(before, after, moved, delta)
    ensures after.Keys == before.Keys && (AllActive(before, keys) <==> AllActive(after, keys))
  {}

  // The outcome in terms of the two updates.
  lemma VoteProducerSteps(s: Votes.State, k: Name, list: seq<Name>)
    requires k in s.voters && s.voters[k].votes >= 0
    requires var v := s.voters[k];
             && Elements(v.producers) <= s.producers.Keys
             && Votes.CanUpdate(s.producers, Elements(v.producers), -v.votes)
             && Votes.Updated(s.producers, Elements(v.producers), -v.votes).Keys == s.producers.Keys
    ensures var v := s.voters[k];
            var without := Votes.Updated(s.producers, Elements(v.producers), -v.votes);
            && (Votes.VoteProducer(s, k, list).Ok? <==>
                  |list| <= 30 && StrictlySorted(list) && v.producers != list
                  && Votes.CanUpdate(without, Elements(list), v.votes))
            && (Votes.VoteProducer(s, k, list).Ok? && Elements(list) <= s.producers.Keys ==>
                  Votes.VoteProducer(s, k, list).value
                  == s.(producers := Votes.Updated(without, Elements(list), v.votes),
                        voters := s.voters[k := Votes.Voter(v.votes, list)]))
  {
    hide Votes.CanUpdate, Votes.Updated, StrictlySorted;
  }

  /** Whatever order the two lists are walked in, each producer's total moves by votes x ([new] - [old]). */
  lemma VoteProducerSystem(w: World, k: Name, list: seq<Name>)
    requires WorldOk(w)
    ensures Votes.VoteProducer(w.votes, k, list).Ok? <==> CanVoteFor(w, k, list)
    ensures Votes.VoteProducer(w.votes, k, list).Ok? ==>
              var v := w.votes.voters[k];
              var x := Votes.VoteProducer(w.votes, k, list).value;
              && x == w.votes.(producers := x.producers, voters := w.votes.voters[k := Votes.Voter(v.votes, list)])
              && VotesMoved(w.votes.producers, x.producers, v.producers, list, v.votes)
  {
    hide WorldOk;
    hide VotesMoved;
    hide Votes.CanUpdate;
    hide Votes.Updated;
    hide AllActive;
    hide VoterCoupled, Coupled, StrictlySorted, Total, Shifted, WithinAsset;
    hide Votes.VoteProducer, Solvent, Custody, Token.LedgerOk;
    if k in w.votes.voters {
      var v := w.votes.voters[k];
      VotesBounds(w, k);
      RemoveVotes(w, k);
      CoupledParts(w);
      VoterView(w, k);
      var without := Votes.Updated(w.votes.producers, Elements(v.producers), -v.votes);
      ShiftKeepsActive(w.votes.producers, without, Elements(v.producers), -v.votes, Elements(list));
      VoteProducerSteps(w.votes, k, list);
      GiveVotes(without, Elements(list), v.votes);
      if Elements(list) <= w.votes.producers.Keys {
        ShiftTwice(w.votes.producers, without, Votes.Updated(without, Elements(list), v.votes), v.producers, list,
                   v.votes);
      }
    } else {
      UnknownVoter(w.votes, k, list);
    }
  }

  lemma UnknownVoter(s: Votes.State, k: Name, list: seq<Name>)
    requires k !in s.voters
    ensures Votes.VoteProducer(s, k, list).Err?
  {}

  ghost function Revoted(w: World, k: Name, list: seq<Name>): World
    requires Votes.VoteProducer(w.votes, k, list).Ok?
  {
    World(Votes.VoteProducer(w.votes, k, list).value,
          AfterResettle(w.rewards, k, Elements(list), Rewards.VoterRow(w.rewards.voters, k).votes), w.ledger)
  }

  lemma VoteProducerCoupled(w: World, k: Name, list: seq<Name>)
    requires WorldOk(w) && Votes.VoteProducer(w.votes, k, list).Ok?
    ensures Coupled(Revoted(w, k, list))
  {
    hide WorldOk;
    hide Solvent;
    hide Coupled;
    hide Votes.VoteProducer;
    hide AfterResettle;
    hide Custody;
    CoupledParts(w);
    VoteProducerSystem(w, k, list);
    VoterView(w, k);
    KnownVoter(w, k);
    var v := w.votes.voters[k];
    forall p
      ensures v.votes * ((if p in list then 1 else 0) - (if p in v.producers then 1 else 0))
           == Rewards.VotesDelta(Rewards.VoterRow(w.rewards.voters, k), Elements(list), v.votes, p)
    {
      assert p in v.producers <==> p in Elements(v.producers);
    }
    CoupledAfter(w, Revoted(w, k, list), k, list, v.votes);
  }

  lemma VoteProducerCustody(w: World, k: Name, list: seq<Name>)
    requires WorldOk(w) && Votes.VoteProducer(w.votes, k, list).Ok?
    ensures var x := Revoted(w, k, list);
            Custody(x) && VoteSlack(x) == VoteSlack(w) && RewardSlack(x) == RewardSlack(w)
  {
    hide WorldOk;
    hide Solvent;
    hide Coupled;
    hide Votes.VoteProducer;
    hide AfterResettle;
    hide VotesMoved;
    hide AllActive;
    CoupledParts(w);
    VoteProducerSystem(w, k, list);
    ResettleView(w.rewards, k, Elements(list), Rewards.VoterRow(w.rewards.voters, k).votes);
  }

  /**
   * voteproducer succeeds exactly for a sorted list of at most 30 registered producers that differs
   * from the current one and, if the voter has votes, contains active producers only -- kept ones
   * included. flon.reward never rejects what flon.system accepted.
   */
  lemma VoteProducerWorld(w: World, k: Name, list: seq<Name>)
    requires WorldOk(w)
    ensures VoteProducer(w, k, list).Ok? <==> CanVoteFor(w, k, list)
    ensures VoteProducer(w, k, list).Ok? ==>
              var x := VoteProducer(w, k, list).value;
              && WorldOk(x) && VoteSlack(x) == VoteSlack(w) && RewardSlack(x) == RewardSlack(w)
              && VotesMoved(w.votes.producers, x.votes.producers, w.votes.voters[k].producers, list,
                            w.votes.voters[k].votes)
              && x.votes.voters == w.votes.voters[k := Votes.Voter(w.votes.voters[k].votes, list)]
              && x.ledger == w.ledger
  {
    hide WorldOk;
    hide Solvent;
    hide Coupled;
    hide Custody;
    hide Votes.VoteProducer;
    hide Rewards.VoteProducer;
    hide VotesMoved;
    hide AllActive;
    CoupledParts(w);
    VoteProducerSystem(w, k, list);
    Actions.VoteProducerSolvent(w.rewards, k, list);
    if Votes.VoteProducer(w.votes, k, list).Ok? {
      VoteProducerCoupled(w, k, list);
      VoteProducerCustody(w, k, list);
      WorldFrom(Revoted(w, k, list));
    }
  }

  // ---- payouts ----

  lemma StakedTerm(w: World, owner: Name)
    requires Custody(w) && owner in w.votes.refunds
    ensures 0 < w.votes.refunds[owner].staked <= Sum(Staked(w.votes.refunds))
    ensures Sum(Staked(w.votes.refunds - {owner})) == Sum(Staked(w.votes.refunds)) - w.votes.refunds[owner].staked
  {
    SumTerm(Staked(w.votes.refunds), owner);
    SumRemove(Staked(w.votes.refunds), owner);
    assert Staked(w.votes.refunds - {owner}) == Staked(w.votes.refunds) - {owner};
  }

  /** A pending refund is paid in full exactly from its request second plus three days on. */
  lemma VoteRefundWorld(w: World, owner: Name, now: int)
    requires WorldOk(w)
    ensures VoteRefund(w, owner, now).Ok? <==>
              owner in w.votes.refunds
              && now >= (w.votes.refunds[owner].requestSec + 259_200) * 1_000_000
    ensures VoteRefund(w, owner, now).Ok? ==>
              var x := VoteRefund(w, owner, now).value;
              && WorldOk(x) && VoteSlack(x) == VoteSlack(w) && RewardSlack(x) == RewardSlack(w)
              && Token.Balance(x.ledger, owner) == Token.Balance(w.ledger, owner) + w.votes.refunds[owner].staked
              && x.votes == w.votes.(refunds := w.votes.refunds - {owner})
  {
    hide Solvent;
    hide VoterCoupled;
    hide Staked;
    hide Pay;
    if owner in w.votes.refunds {
      KnownVoter(w, owner);
      StakedTerm(w, owner);
      VotesBounds(w, owner);
      PayUsers(w.(votes := w.votes.(refunds := w.votes.refunds - {owner})), VOTE_ACCOUNT, owner,
               w.votes.refunds[owner].staked);
      if VoteRefund(w, owner, now).Ok? {
        VotersKept(w, VoteRefund(w, owner, now).value);
      }
    }
  }

  // Coupling only looks at voters, totals, stake and accounts.
  lemma VotersKept(w: World, x: World)
    requires Coupled(w) && x.rewards == w.rewards && x.ledger.accounts == w.ledger.accounts
    requires x.votes.voters == w.votes.voters && x.votes.producers == w.votes.producers
             && x.votes.totalStake == w.votes.totalStake
    ensures Coupled(x)
  {
    forall k ensures VoterCoupled(x, k) {
      assert VoterCoupled(w, k);
    }
  }
}
