/** Every flon.reward action keeps the contract solvent, and its internal checks never fire. */
module RewardActions {
  import opened Common
  import opened Sums
  import opened RewardSpec
  import opened RewardInvariant

  lemma RegProducerSolvent(s: State, p: Name)
    requires Solvent(s)
    ensures Solvent(RegProducer(s, p))
  {
    var s' := RegProducer(s, p);
    forall q ensures ProducerOk(s', q) {
      assert ProducerOk(s, q);
    }
    forall v | v in s'.voters ensures VoterOk(s', s'.voters[v]) {
      assert VoterOk(s, s.voters[v]);
    }
    RegProducerBooks(s, p);
  }

  // It registers that producer and changes nothing else; a new row starts empty.
  lemma RegistrationLeaves(s: State, p: Name)
    ensures var t := RegProducer(s, p);
            && t == s.(producers := t.producers) && t.producers.Keys == s.producers.Keys + {p}
            && (forall q :: q in s.producers && q != p ==> t.producers[q] == s.producers[q])
            && t.producers[p].registered
            && (p in s.producers ==> t.producers[p] == s.producers[p].(registered := true))
            && (p !in s.producers ==> t.producers[p] == Producer(true, 0, 0, 0, 0, 0))
  {}

  lemma RegProducerBooks(s: State, p: Name)
    ensures Sum(Deposited(RegProducer(s, p).producers)) == Sum(Deposited(s.producers))
    ensures Sum(Allocated(RegProducer(s, p).producers)) == Sum(Allocated(s.producers))
  {
    hide ProducerRow;
    var row := map[p := RegProducer(s, p).producers[p]];
    assert RegProducer(s, p).producers == s.producers + row;
    DepositedShift(s.producers, row);
    AllocatedShift(s.producers, row, map[p := 0]);
    SumZero(map[p := 0]);
  }

  /**
   * addvote/subvote: rejected only for a nonpositive amount or for taking more votes than the voter
   * has; no check inside the settlement can fire.
   */
  lemma ChangeVoteSolvent(s: State, k: Name, votes: int, adding: bool)
    requires Solvent(s)
    requires adding ==> Sum(AllVotes(s.voters)) + votes <= MAX_ASSET
    ensures ChangeVote(s, k, votes, adding).Ok? <==> votes > 0 && (adding || votes <= VoterRow(s.voters, k).votes)
    ensures ChangeVote(s, k, votes, adding).Ok? ==>
              && ChangeVote(s, k, votes, adding).value == AfterChange(s, k, votes, adding)
              && Solvent(AfterChange(s, k, votes, adding))
  {
    hide Resettle, SettleRow, Debt, AfterResettle, Solvent;
    var v := VoterRow(s.voters, k);
    if votes > 0 && (adding || votes <= v.votes) {
      VotesTerm(s, k);
      ResettleSolvent(s, k, v.producers.Keys, v.votes + Signed(votes, adding));
      ChangeVoteExact(s, k, votes, adding);
    } else {
      assert ChangeVote(s, k, votes, adding).Err?;
    }
  }

  function Signed(votes: int, adding: bool): int {
    if adding then votes else -votes
  }

  ghost function AfterChange(s: State, k: Name, votes: int, adding: bool): State {
    var v := VoterRow(s.voters, k);
    AfterResettle(s, k, v.producers.Keys, v.votes + Signed(votes, adding))
  }

  lemma ChangeVoteExact(s: State, k: Name, votes: int, adding: bool)
    requires var v := VoterRow(s.voters, k);
             && votes > 0 && 0 <= v.votes <= MAX_ASSET && 0 <= v.votes + Signed(votes, adding) <= MAX_ASSET
             && Resettle(s, k, v.producers.Keys, v.votes + Signed(votes, adding))
                  == Ok(AfterChange(s, k, votes, adding))
    ensures ChangeVote(s, k, votes, adding) == Ok(AfterChange(s, k, votes, adding))
  {
    hide Resettle, AfterResettle;
    ResettledVotes(s, k, VoterRow(s.voters, k).producers.Keys, VoterRow(s.voters, k).votes + Signed(votes, adding));
    var after := AfterChange(s, k, votes, adding);
    assert after.voters[k := after.voters[k].(votes := VoterRow(s.voters, k).votes + Signed(votes, adding))]
             == after.voters;
  }

  lemma ResettledVotes(s: State, k: Name, keys: set<Name>, votes: int)
    ensures k in AfterResettle(s, k, keys, votes).voters && AfterResettle(s, k, keys, votes).voters[k].votes == votes
  {}

  lemma VotesTerm(s: State, k: Name)
    requires Solvent(s)
    ensures 0 <= VoterRow(s.voters, k).votes <= Sum(AllVotes(s.voters)) <= MAX_ASSET
  {
    forall j | j in s.voters ensures AllVotes(s.voters)[j] >= 0 {
      assert VoterOk(s, s.voters[j]);
    }
    SumNonNegative(AllVotes(s.voters));
    if k in s.voters {
      SumTerm(AllVotes(s.voters), k);
    }
  }

  /** voteproducer accepts exactly the strictly sorted lists. */
  lemma VoteProducerSolvent(s: State, k: Name, producers: seq<Name>)
    requires Solvent(s)
    ensures VoteProducer(s, k, producers).Ok? <==> StrictlySorted(producers)
    ensures StrictlySorted(producers) ==>
              VoteProducer(s, k, producers).value ==
                AfterResettle(s, k, Elements(producers), VoterRow(s.voters, k).votes)
    ensures StrictlySorted(producers) ==> Solvent(VoteProducer(s, k, producers).value)
  {
    VotesTerm(s, k);
    ResettleSolvent(s, k, Elements(producers), VoterRow(s.voters, k).votes);
  }

  /** What voter k could claim now: recorded rewards plus the floor of every outstanding debt. */
  ghost function Claimable(s: State, k: Name): int {
    var v := VoterRow(s.voters, k);
    v.unclaimed + Sum(Shares(s, v, v.producers.Keys))
  }

  lemma NoVotesNoShares(s: State, v: Voter)
    requires v.votes == 0
    ensures Sum(Shares(s, v, v.producers.Keys)) == 0
  {
    forall p | p in v.producers.Keys ensures Share(s, v, p) == 0 {
      assert v.votes * (ProducerRow(s.producers, p).rewardsPerVote - v.producers[p]) == 0;
    }
    SumZero(Shares(s, v, v.producers.Keys));
  }

  ghost function Paid(u: Voter): Voter {
    u.(claimed := u.claimed + u.unclaimed, unclaimed := 0)
  }

  lemma PaidKeepsDebts(voters: map<Name, Voter>, k: Name, p: Name, rpv: int)
    requires k in voters
    ensures Sum(Stakes(voters[k := Paid(voters[k])], p)) == Sum(Stakes(voters, p))
    ensures Sum(Debts(voters[k := Paid(voters[k])], p, rpv)) == Sum(Debts(voters, p, rpv))
  {
    ReplaceVoter(voters, k, Paid(voters[k]), p, rpv);
    assert Debt(Paid(voters[k]), p, rpv) == Debt(voters[k], p, rpv);
  }

  lemma PaidSolvent(s: State, k: Name)
    requires Solvent(s) && k in s.voters
    ensures Solvent(s.(voters := s.voters[k := Paid(s.voters[k])]))
  {
    hide Debt;
    var s' := s.(voters := s.voters[k := Paid(s.voters[k])]);
    forall p ensures ProducerOk(s', p) {
      assert ProducerOk(s, p);
      PaidKeepsDebts(s.voters, k, p, ProducerRow(s.producers, p).rewardsPerVote);
    }
    forall v | v in s'.voters ensures VoterOk(s', s'.voters[v]) {
      assert VoterOk(s, s.voters[v]);
    }
    ReplaceVoterBooks(s.voters, k, Paid(s.voters[k]));
  }

  // The state in which claim_rewards looks at the voter's unclaimed rewards.
  ghost function BeforePayout(s: State, k: Name): State {
    var v := VoterRow(s.voters, k);
    if v.votes > 0 then AfterResettle(s, k, v.producers.Keys, v.votes) else s
  }

  lemma BeforePayoutSolvent(s: State, k: Name)
    requires Solvent(s) && k in s.voters
    ensures Solvent(BeforePayout(s, k))
    ensures s.voters[k].votes > 0 ==>
              Resettle(s, k, s.voters[k].producers.Keys, s.voters[k].votes) == Ok(BeforePayout(s, k))
    ensures k in BeforePayout(s, k).voters && BeforePayout(s, k).voters[k].unclaimed == Claimable(s, k)
    ensures BeforePayout(s, k).voters[k].unclaimed + BeforePayout(s, k).voters[k].claimed <= MAX_ASSET
  {
    var v := s.voters[k];
    VotesTerm(s, k);
    ResettleSolvent(s, k, v.producers.Keys, v.votes);
    if v.votes == 0 {
      NoVotesNoShares(s, v);
    }
    EarnedTerm(BeforePayout(s, k), k);
    AllocatedWithinDeposits(BeforePayout(s, k));
  }

  ghost function AfterClaim(s: State, k: Name): State
    requires k in BeforePayout(s, k).voters
  {
    var mid := BeforePayout(s, k);
    mid.(voters := mid.voters[k := Paid(mid.voters[k])])
  }

  lemma ClaimExact(s: State, k: Name)
    requires k in s.voters && s.voters[k].votes >= 0
    requires s.voters[k].votes > 0 ==>
               Resettle(s, k, s.voters[k].producers.Keys, s.voters[k].votes) == Ok(BeforePayout(s, k))
    requires BeforePayout(s, k).voters[k].unclaimed + BeforePayout(s, k).voters[k].claimed <= MAX_ASSET
    ensures var due := BeforePayout(s, k).voters[k].unclaimed;
            Claim(s, k) == if due <= 0 then Err(NothingToClaim) else Ok((AfterClaim(s, k), due))
  {}

  /** claimrewards succeeds exactly for a known voter with something to claim, and pays all of it. */
  lemma ClaimSolvent(s: State, k: Name)
    requires Solvent(s)
    ensures Claim(s, k).Ok? <==> k in s.voters && Claimable(s, k) > 0
    ensures Claim(s, k).Ok? ==> Claim(s, k).value == (AfterClaim(s, k), Claimable(s, k)) && Solvent(AfterClaim(s, k))
  {
    if k in s.voters {
      assert s.voters[k].votes >= 0 by { VotesTerm(s, k); }
      BeforePayoutSolvent(s, k);
      ClaimExact(s, k);
      PaidSolvent(BeforePayout(s, k), k);
    }
  }

  // ---- deposits ----

  // How much a deposit of `amount` raises the rate of a producer with `votes` votes.
  function Rise(amount: int, votes: int): int
    requires amount >= 0 && votes >= 0
  {
    if votes > 0 then amount * HIGH_PRECISION / votes else 0
  }

  lemma RiseBounds(amount: int, votes: int)
    requires amount >= 0 && votes >= 0
    ensures 0 <= Rise(amount, votes) <= amount * HIGH_PRECISION
    ensures Rise(amount, votes) * votes <= amount * HIGH_PRECISION
    ensures votes > 0 ==> amount * HIGH_PRECISION < (Rise(amount, votes) + 1) * votes
  {
    if votes > 0 {
      var x := amount * HIGH_PRECISION;
      FloorBounds(x, votes);
    }
  }

  lemma FloorBounds(x: int, d: int)
    requires x >= 0 && d > 0
    ensures 0 <= x / d <= x && (x / d) * d <= x < (x / d + 1) * d
  {
    assert x == (x / d) * d + x % d;
    MulBoundBelow(x / d, d);
  }

  lemma MulBoundBelow(q: int, d: int)
    requires q >= 0 && d >= 1
    ensures q <= q * d
  {}

  /** Raising p's rate by `rise` adds rise times p's votes to what its supporters are owed. */
  lemma RaiseDebts(voters: map<Name, Voter>, p: Name, rpv: int, rise: int)
    ensures Sum(Debts(voters, p, rpv + rise)) == Sum(Debts(voters, p, rpv)) + rise * Sum(Stakes(voters, p))
  {
    var before, stakes, after := Debts(voters, p, rpv), Stakes(voters, p), Debts(voters, p, rpv + rise);
    forall v | v in voters ensures after[v] == before[v] + rise * stakes[v] {
      if p in voters[v].producers {
        var d := rpv - voters[v].producers[p];
        assert rpv + rise - voters[v].producers[p] == d + rise;
        Distribute(voters[v].votes, d, rise);
        assert after[v] == voters[v].votes * (d + rise);
      }
    }
    SumLinear(before, stakes, rise, after);
  }

  ghost function AfterDeposit(s: State, from: Name, amount: int): State
    requires from in s.producers && amount >= 0 && s.producers[from].votes >= 0
  {
    var p := s.producers[from];
    s.(totalRewards := s.totalRewards + amount,
       producers := s.producers[from := p.(totalRewards := p.totalRewards + amount,
                                           allocatingRewards := p.allocatingRewards + amount,
                                           rewardsPerVote := p.rewardsPerVote + Rise(amount, p.votes))])
  }

  lemma DepositExact(s: State, from: Name, amount: int)
    requires Solvent(s) && amount >= 0
    ensures Deposit(s, from, amount).Ok? <==>
              from in s.producers && s.producers[from].registered && s.totalRewards + amount <= MAX_ASSET
    ensures Deposit(s, from, amount).Ok? ==>
              && s.producers[from].votes >= 0
              && Deposit(s, from, amount).value == AfterDeposit(s, from, amount)
  {
    hide Solvent, Debts;
    RowBounds(s, from);
    if from in s.producers && s.totalRewards + amount <= MAX_ASSET {
      var p := s.producers[from];
      RiseBounds(amount, p.votes);
      assert Int128(amount * HIGH_PRECISION) == amount * HIGH_PRECISION;
      assert amount == 0 ==> Rise(amount, p.votes) == 0;
    }
  }

  lemma DepositProducer(s: State, from: Name, amount: int)
    requires ProducerOk(s, from) && from in s.producers && amount >= 0 && s.producers[from].votes >= 0
    ensures ProducerOk(AfterDeposit(s, from, amount), from)
  {
    var p := s.producers[from];
    var rise := Rise(amount, p.votes);
    RaiseDebts(s.voters, from, p.rewardsPerVote, rise);
    RiseBounds(amount, p.votes);
    var owed := Sum(Debts(s.voters, from, p.rewardsPerVote + rise));
    assert owed <= (p.allocatingRewards + amount) * HIGH_PRECISION;
  }

  /** A deposit is rejected only for an unknown or unregistered sender or an asset overflow. */
  lemma DepositSolvent(s: State, from: Name, amount: int)
    requires Solvent(s) && amount >= 0
    ensures Deposit(s, from, amount).Ok? <==>
              from in s.producers && s.producers[from].registered && s.totalRewards + amount <= MAX_ASSET
    ensures Deposit(s, from, amount).Ok? ==> Solvent(Deposit(s, from, amount).value)
  {
    DepositExact(s, from, amount);
    if Deposit(s, from, amount).Ok? {
      var s' := AfterDeposit(s, from, amount);
      forall p ensures ProducerOk(s', p) {
        if p == from {
          DepositProducer(s, from, amount);
        } else {
          assert ProducerOk(s, p);
        }
      }
      forall v | v in s'.voters ensures VoterOk(s', s'.voters[v]) {
        assert VoterOk(s, s.voters[v]);
        RiseBounds(amount, s.producers[from].votes);
      }
      assert Deposited(s'.producers) == Deposited(s.producers)[from := s'.producers[from].totalRewards];
      SumUpdate(Deposited(s.producers), from, s'.producers[from].totalRewards);
      assert Allocated(s'.producers) == Allocated(s.producers);
    }
  }
}
