/** The solvency invariant of flon.reward and its preservation by every action. */
module RewardInvariant {
  import opened Common
  import opened Sums
  import opened RewardSpec

  // Votes voter v holds on producer p, for all voters.
  ghost function Stakes(voters: map<Name, Voter>, p: Name): map<Name, int> {
    map v | v in voters :: Stake(voters[v], p)
  }

  // Scaled rewards that settling v against p at rate rpv would release.
  ghost function Debt(v: Voter, p: Name, rpv: int): int {
    if p in v.producers then v.votes * (rpv - v.producers[p]) else 0
  }

  ghost function Debts(voters: map<Name, Voter>, p: Name, rpv: int): map<Name, int> {
    map v | v in voters :: Debt(voters[v], p, rpv)
  }

  ghost function AllVotes(voters: map<Name, Voter>): map<Name, int> {
    map v | v in voters :: voters[v].votes
  }

  ghost function Earned(voters: map<Name, Voter>): map<Name, int> {
    map v | v in voters :: voters[v].unclaimed + voters[v].claimed
  }

  ghost function Deposited(producers: map<Name, Producer>): map<Name, int> {
    map p | p in producers :: producers[p].totalRewards
  }

  ghost function Allocated(producers: map<Name, Producer>): map<Name, int> {
    map p | p in producers :: producers[p].allocatedRewards
  }

  /** The producer can pay every supporter what it is owed, and its books balance. */
  ghost predicate ProducerOk(s: State, p: Name) {
    var row := ProducerRow(s.producers, p);
    && row.votes == Sum(Stakes(s.voters, p))
    && Sum(Debts(s.voters, p, row.rewardsPerVote)) <= row.allocatingRewards * HIGH_PRECISION
    && row.allocatingRewards >= 0 && row.allocatedRewards >= 0
    && row.totalRewards == row.allocatingRewards + row.allocatedRewards
    && 0 <= row.rewardsPerVote <= row.totalRewards * HIGH_PRECISION
  }

  ghost predicate VoterOk(s: State, v: Voter) {
    && v.votes >= 0 && v.unclaimed >= 0 && v.claimed >= 0
    && forall p :: p in v.producers ==>
         p in s.producers && 0 <= v.producers[p] <= s.producers[p].rewardsPerVote
  }

  ghost predicate Books(s: State) {
    && Sum(Deposited(s.producers)) == s.totalRewards <= MAX_ASSET
    && Sum(Allocated(s.producers)) == Sum(Earned(s.voters))
    && Sum(AllVotes(s.voters)) <= MAX_ASSET
  }

  ghost predicate Solvent(s: State) {
    && (forall p :: ProducerOk(s, p))
    && (forall v :: v in s.voters ==> VoterOk(s, s.voters[v]))
    && Books(s)
  }

  lemma EmptySolvent()
    ensures Solvent(EMPTY)
  {
    forall p ensures ProducerOk(EMPTY, p) {
      assert Stakes(EMPTY.voters, p) == map[] && Debts(EMPTY.voters, p, 0) == map[];
    }
    assert Deposited(EMPTY.producers) == map[] && Allocated(EMPTY.producers) == map[];
    assert Earned(EMPTY.voters) == map[] && AllVotes(EMPTY.voters) == map[];
  }

  // ---- how the sums react to one voter row ----

  lemma ReplaceVoter(voters: map<Name, Voter>, k: Name, v: Voter, p: Name, rpv: int)
    ensures Sum(Stakes(voters[k := v], p)) == Sum(Stakes(voters, p)) - Stake(VoterRow(voters, k), p) + Stake(v, p)
    ensures Sum(Debts(voters[k := v], p, rpv))
              == Sum(Debts(voters, p, rpv)) - Debt(VoterRow(voters, k), p, rpv) + Debt(v, p, rpv)
  {
    assert Stakes(voters[k := v], p) == Stakes(voters, p)[k := Stake(v, p)];
    assert Debts(voters[k := v], p, rpv) == Debts(voters, p, rpv)[k := Debt(v, p, rpv)];
    SumUpdate(Stakes(voters, p), k, Stake(v, p));
    SumUpdate(Debts(voters, p, rpv), k, Debt(v, p, rpv));
  }

  lemma ReplaceVoterBooks(voters: map<Name, Voter>, k: Name, v: Voter)
    ensures var was := VoterRow(voters, k);
            && Sum(AllVotes(voters[k := v])) == Sum(AllVotes(voters)) - was.votes + v.votes
            && Sum(Earned(voters[k := v]))
                 == Sum(Earned(voters)) - was.unclaimed - was.claimed + v.unclaimed + v.claimed
  {
    assert AllVotes(voters[k := v]).Keys == AllVotes(voters)[k := v.votes].Keys;
    assert AllVotes(voters[k := v]) == AllVotes(voters)[k := v.votes];
    assert Earned(voters[k := v]).Keys == Earned(voters)[k := v.unclaimed + v.claimed].Keys;
    assert Earned(voters[k := v]) == Earned(voters)[k := v.unclaimed + v.claimed];
    SumUpdate(AllVotes(voters), k, v.votes);
    SumUpdate(Earned(voters), k, v.unclaimed + v.claimed);
  }

  // ---- bounds every reachable row obeys ----

  lemma OwnShare(s: State, v: Voter, p: Name)
    requires VoterOk(s, v)
    ensures 0 <= Debt(v, p, ProducerRow(s.producers, p).rewardsPerVote) && 0 <= Stake(v, p)
  {}

  lemma NoVoterNoShare(p: Name, rpv: int)
    ensures Debt(NEW_VOTER, p, rpv) == 0 && Stake(NEW_VOTER, p) == 0
  {}

  /** One supporter's stake and debt are covered by the producer's row. */
  lemma VoterShare(s: State, k: Name, p: Name)
    requires Solvent(s)
    ensures var v := VoterRow(s.voters, k);
            var row := ProducerRow(s.producers, p);
            && 0 <= Stake(v, p) <= row.votes
            && 0 <= Debt(v, p, row.rewardsPerVote) <= row.allocatingRewards * HIGH_PRECISION
  {
    var row := ProducerRow(s.producers, p);
    assert ProducerOk(s, p);
    forall j | j in s.voters
      ensures 0 <= Debt(s.voters[j], p, row.rewardsPerVote) && 0 <= Stake(s.voters[j], p)
    {
      OwnShare(s, s.voters[j], p);
    }
    hide Solvent, VoterOk, Debt, Stake;
    NoVoterNoShare(p, row.rewardsPerVote);
    SumNonNegative(Stakes(s.voters, p));
    SumNonNegative(Debts(s.voters, p, row.rewardsPerVote));
    if k in s.voters {
      SumTerm(Stakes(s.voters, p), k);
      SumTerm(Debts(s.voters, p, row.rewardsPerVote), k);
    }
  }

  /** No producer has more votes than all voters together, nor more rewards than were deposited. */
  lemma RowBounds(s: State, p: Name)
    requires Solvent(s)
    ensures var row := ProducerRow(s.producers, p);
            && 0 <= row.votes <= Sum(AllVotes(s.voters)) <= MAX_ASSET
            && 0 <= row.allocatingRewards <= row.totalRewards <= s.totalRewards <= MAX_ASSET
            && 0 <= row.allocatedRewards <= row.totalRewards
            && 0 <= row.rewardsPerVote <= s.totalRewards * HIGH_PRECISION
  {
    assert ProducerOk(s, p);
    forall v | v in s.voters
      ensures 0 <= Stake(s.voters[v], p) <= s.voters[v].votes
    {
      assert VoterOk(s, s.voters[v]);
    }
    SumMono(Stakes(s.voters, p), AllVotes(s.voters));
    SumNonNegative(Stakes(s.voters, p));
    forall q | q in s.producers ensures s.producers[q].totalRewards >= 0 {
      assert ProducerOk(s, q);
    }
    SumNonNegative(Deposited(s.producers));
    if p in s.producers {
      SumTerm(Deposited(s.producers), p);
    }
  }

  // ---- settlement ----

  /** What voter k gets from p when settled: the floor of the scaled debt. */
  ghost function Share(s: State, v: Voter, p: Name): int {
    Debt(v, p, ProducerRow(s.producers, p).rewardsPerVote) / HIGH_PRECISION
  }

  lemma MulBound(a: int, b: int, c: int)
    requires a > 0 && b >= 0 && a * b <= c
    ensures b <= a * b <= c
  {}

  lemma ScaleDown(debt: int, rewards: int)
    requires 0 <= debt <= rewards * HIGH_PRECISION
    ensures 0 <= debt / HIGH_PRECISION <= rewards
  {}

  function Settled(row: Producer, reward: int, votesDelta: int): Producer {
    row.(allocatingRewards := row.allocatingRewards - reward,
         allocatedRewards := row.allocatedRewards + reward,
         votes := row.votes + votesDelta)
  }

  /** A settlement whose debt is covered passes every check and no operation of it wraps. */
  lemma SettleExact(row: Producer, votesOld: int, votesDelta: int, last: int, debt: int)
    requires 0 <= last <= row.rewardsPerVote <= MAX_ASSET * HIGH_PRECISION
    requires 0 <= votesOld <= row.votes <= MAX_ASSET && 0 <= row.votes + votesDelta <= MAX_ASSET
    requires debt == votesOld * (row.rewardsPerVote - last)
    requires 0 <= debt <= row.allocatingRewards * HIGH_PRECISION
    requires 0 <= row.allocatedRewards && row.totalRewards == row.allocatingRewards + row.allocatedRewards <= MAX_ASSET
    ensures var reward := debt / HIGH_PRECISION;
            SettleRow(row, votesOld, votesDelta, last) ==
              Ok(Settlement(Settled(row, reward, votesDelta), reward))
  {
    var delta := row.rewardsPerVote - last;
    ScaleDown(debt, row.allocatingRewards);
    assert Int128(delta) == delta;
    if votesOld > 0 && delta > 0 {
      MulBound(votesOld, delta, debt);
      assert Int128(votesOld * delta) == debt;
      assert VoterRewards(votesOld, delta) == Ok(debt / HIGH_PRECISION);
    } else {
      assert debt == 0;
    }
  }

  lemma CheckpointBound(s: State, k: Name, p: Name)
    requires Solvent(s)
    ensures var v := VoterRow(s.voters, k);
            var rpv := ProducerRow(s.producers, p).rewardsPerVote;
            && 0 <= Checkpoint(v, p) <= rpv
            && Debt(v, p, rpv) == Stake(v, p) * (rpv - Checkpoint(v, p))
  {
    assert ProducerOk(s, p);
    assert k in s.voters ==> VoterOk(s, s.voters[k]);
  }

  /** In a solvent state every settlement succeeds and pays exactly the floor of the debt. */
  lemma PieceSucceeds(s: State, k: Name, keys: set<Name>, votes: int, p: Name)
    requires Solvent(s)
    requires 0 <= votes && Sum(AllVotes(s.voters)) - VoterRow(s.voters, k).votes + votes <= MAX_ASSET
    ensures var v := VoterRow(s.voters, k);
            var row := ProducerRow(s.producers, p);
            var reward := Share(s, v, p);
            Piece(s, v, keys, votes, p) ==
              Ok(Settlement(Settled(row, reward, VotesDelta(v, keys, votes, p)), reward))
  {
    var v := VoterRow(s.voters, k);
    var row := ProducerRow(s.producers, p);
    CheckpointBound(s, k, p);
    VoterShare(s, k, p);
    RowBounds(s, p);
    StakeAfter(s, k, keys, votes, p);
    assert row.totalRewards == row.allocatingRewards + row.allocatedRewards by { assert ProducerOk(s, p); }
    SettleExact(row, Stake(v, p), VotesDelta(v, keys, votes, p), Checkpoint(v, p), Debt(v, p, row.rewardsPerVote));
  }

  /** The producer's new vote total is again a sum of stakes, hence within 64 bits. */
  lemma StakeAfter(s: State, k: Name, keys: set<Name>, votes: int, p: Name)
    requires Solvent(s)
    requires 0 <= votes && Sum(AllVotes(s.voters)) - VoterRow(s.voters, k).votes + votes <= MAX_ASSET
    ensures var v := VoterRow(s.voters, k);
            0 <= ProducerRow(s.producers, p).votes + VotesDelta(v, keys, votes, p) <= MAX_ASSET
  {
    hide Debt;
    var v := VoterRow(s.voters, k);
    var u := Voter(votes, map q | q in keys :: 0, 0, 0);
    assert ProducerOk(s, p);
    ReplaceVoter(s.voters, k, u, p, 0);
    ReplaceVoterBooks(s.voters, k, u);
    var voters := s.voters[k := u];
    forall j | j in voters
      ensures 0 <= Stake(voters[j], p) <= voters[j].votes
    {
      assert j != k ==> VoterOk(s, s.voters[j]);
    }
    SumMono(Stakes(voters, p), AllVotes(voters));
    SumNonNegative(Stakes(voters, p));
  }

  ghost function Shares(s: State, v: Voter, keys: set<Name>): map<Name, int> {
    map p | p in v.producers.Keys + keys :: Share(s, v, p)
  }

  ghost function SettledRows(s: State, v: Voter, keys: set<Name>, votes: int): map<Name, Producer> {
    map p | p in v.producers.Keys + keys ::
      Settled(ProducerRow(s.producers, p), Share(s, v, p), VotesDelta(v, keys, votes, p))
  }

  // The state after settling voter k everywhere, in closed form.
  ghost function AfterResettle(s: State, k: Name, keys: set<Name>, votes: int): State {
    var v := VoterRow(s.voters, k);
    s.(producers := s.producers + SettledRows(s, v, keys, votes),
       voters := s.voters[k := Voter(votes, Checkpoints(s, keys),
                                     v.unclaimed + Sum(Shares(s, v, keys)), v.claimed)])
  }

  ghost predicate VotesFit(s: State, k: Name, votes: int) {
    0 <= votes && Sum(AllVotes(s.voters)) - VoterRow(s.voters, k).votes + votes <= MAX_ASSET
  }

  lemma FreshCheckpoint(v: Voter, p: Name, rpv: int)
    requires p in v.producers ==> v.producers[p] == rpv
    ensures Debt(v, p, rpv) == 0
  {
    assert p in v.producers ==> v.votes * (rpv - v.producers[p]) == v.votes * 0;
  }

  lemma SettledRow(s: State, k: Name, keys: set<Name>, votes: int, p: Name)
    ensures var v := VoterRow(s.voters, k);
            var row := ProducerRow(s.producers, p);
            var row' := ProducerRow(AfterResettle(s, k, keys, votes).producers, p);
            && row' == Settled(row, Share(s, v, p), VotesDelta(v, keys, votes, p))
            && row'.rewardsPerVote == row.rewardsPerVote
  {
    var v := VoterRow(s.voters, k);
    if p !in v.producers.Keys + keys {
      assert Debt(v, p, ProducerRow(s.producers, p).rewardsPerVote) == 0;
    }
  }

  lemma ResettleProducer(s: State, k: Name, keys: set<Name>, votes: int, p: Name)
    requires Solvent(s)
    ensures ProducerOk(AfterResettle(s, k, keys, votes), p)
    ensures Share(s, VoterRow(s.voters, k), p) >= 0
  {
    hide Debt, Solvent, Stakes, Debts;
    var s' := AfterResettle(s, k, keys, votes);
    var v := VoterRow(s.voters, k);
    var rpv := ProducerRow(s.producers, p).rewardsPerVote;
    ProducerFromSolvent(s, p);
    VoterShare(s, k, p);
    SettledRow(s, k, keys, votes, p);
    FreshCheckpoint(s'.voters[k], p, rpv);
    ReplaceVoter(s.voters, k, s'.voters[k], p, rpv);
    ScaleDown(Debt(v, p, rpv), ProducerRow(s.producers, p).allocatingRewards);
  }

  lemma ProducerFromSolvent(s: State, p: Name)
    requires Solvent(s)
    ensures ProducerOk(s, p)
  {}

  lemma DepositedShift(rows: map<Name, Producer>, updated: map<Name, Producer>)
    requires forall p :: p in updated ==> updated[p].totalRewards == ProducerRow(rows, p).totalRewards
    ensures Sum(Deposited(rows + updated)) == Sum(Deposited(rows))
  {
    var zeros := map p | p in updated :: 0;
    var shifted := Plus(Deposited(rows), zeros);
    assert zeros.Keys == updated.Keys;
    assert Deposited(rows + updated).Keys == shifted.Keys;
    forall p | p in shifted ensures Deposited(rows + updated)[p] == shifted[p] {
      assert p in updated ==> At(Deposited(rows), p) == ProducerRow(rows, p).totalRewards;
    }
    assert Deposited(rows + updated) == shifted;
    SumPlus(Deposited(rows), zeros);
    SumZero(zeros);
  }

  lemma AllocatedShift(rows: map<Name, Producer>, updated: map<Name, Producer>, shares: map<Name, int>)
    requires updated.Keys == shares.Keys
    requires forall p :: p in updated ==>
               updated[p].allocatedRewards == ProducerRow(rows, p).allocatedRewards + shares[p]
    ensures Sum(Allocated(rows + updated)) == Sum(Allocated(rows)) + Sum(shares)
  {
    var shifted := Plus(Allocated(rows), shares);
    assert Allocated(rows + updated).Keys == shifted.Keys;
    forall p | p in shifted ensures Allocated(rows + updated)[p] == shifted[p] {
      assert p in updated ==> At(Allocated(rows), p) == ProducerRow(rows, p).allocatedRewards;
    }
    assert Allocated(rows + updated) == shifted;
    SumPlus(Allocated(rows), shares);
  }

  lemma EarnedTerm(s: State, k: Name)
    requires forall v :: v in s.voters ==> VoterOk(s, s.voters[v])
    ensures 0 <= VoterRow(s.voters, k).unclaimed <= Sum(Earned(s.voters))
    ensures 0 <= VoterRow(s.voters, k).claimed <= Sum(Earned(s.voters))
    ensures VoterRow(s.voters, k).unclaimed + VoterRow(s.voters, k).claimed <= Sum(Earned(s.voters))
  {
    forall j | j in s.voters ensures Earned(s.voters)[j] >= 0 {
      assert VoterOk(s, s.voters[j]);
    }
    SumNonNegative(Earned(s.voters));
    if k in s.voters {
      assert VoterOk(s, s.voters[k]);
      SumTerm(Earned(s.voters), k);
    }
  }

  lemma AllocatedWithinDeposits(s: State)
    requires forall p :: ProducerOk(s, p)
    ensures Sum(Allocated(s.producers)) <= Sum(Deposited(s.producers))
  {
    forall q | q in s.producers
      ensures Allocated(s.producers)[q] <= Deposited(s.producers)[q]
    {
      assert ProducerOk(s, q);
    }
    SumMono(Allocated(s.producers), Deposited(s.producers));
  }

  lemma ResettleBooks(s: State, k: Name, keys: set<Name>, votes: int)
    requires Solvent(s) && VotesFit(s, k, votes)
    ensures Books(AfterResettle(s, k, keys, votes))
    ensures 0 <= Sum(Shares(s, VoterRow(s.voters, k), keys))
    ensures VoterRow(s.voters, k).unclaimed + Sum(Shares(s, VoterRow(s.voters, k), keys)) <= MAX_ASSET
  {
    hide Debt, ProducerOk, VoterOk;
    var s' := AfterResettle(s, k, keys, votes);
    var v := VoterRow(s.voters, k);
    var shares := Shares(s, v, keys);
    forall p ensures ProducerOk(s', p) && Share(s, v, p) >= 0 {
      ResettleProducer(s, k, keys, votes, p);
    }
    SumNonNegative(shares);
    DepositedShift(s.producers, SettledRows(s, v, keys, votes));
    AllocatedShift(s.producers, SettledRows(s, v, keys, votes), shares);
    ReplaceVoterBooks(s.voters, k, s'.voters[k]);
    AllocatedWithinDeposits(s');
    EarnedTerm(s, k);
  }

  lemma VoterOkLater(s: State, s': State, v: Voter)
    requires VoterOk(s, v)
    requires forall p :: ProducerRow(s.producers, p).rewardsPerVote <= ProducerRow(s'.producers, p).rewardsPerVote
    requires s.producers.Keys <= s'.producers.Keys
    ensures VoterOk(s', v)
  {
    forall p | p in v.producers
      ensures p in s'.producers && 0 <= v.producers[p] <= s'.producers[p].rewardsPerVote
    {
      assert ProducerRow(s.producers, p).rewardsPerVote <= ProducerRow(s'.producers, p).rewardsPerVote;
    }
  }

  lemma ResettleVoters(s: State, k: Name, keys: set<Name>, votes: int)
    requires Solvent(s) && VotesFit(s, k, votes)
    ensures var s' := AfterResettle(s, k, keys, votes);
            forall j :: j in s'.voters ==> VoterOk(s', s'.voters[j])
  {
    var s' := AfterResettle(s, k, keys, votes);
    ResettleBooks(s, k, keys, votes);
    EarnedTerm(s, k);
    forall p
      ensures ProducerRow(s'.producers, p).rewardsPerVote == ProducerRow(s.producers, p).rewardsPerVote >= 0
    {
      SettledRow(s, k, keys, votes, p);
      RowBounds(s, p);
    }
    forall j | j in s'.voters ensures VoterOk(s', s'.voters[j]) {
      if j != k {
        VoterOkLater(s, s', s.voters[j]);
      } else {
        forall p | p in s'.voters[k].producers
          ensures p in s'.producers && s'.voters[k].producers[p] == ProducerRow(s'.producers, p).rewardsPerVote
        {}
      }
    }
  }

  lemma ResettleRows(s: State, k: Name, keys: set<Name>, votes: int)
    requires Solvent(s) && VotesFit(s, k, votes)
    ensures var v := VoterRow(s.voters, k);
            && PiecesOk(s, v, keys, votes)
            && Rewards(s, v, keys, votes) == Shares(s, v, keys)
            && PieceRows(s, v, keys, votes) == SettledRows(s, v, keys, votes)
  {
    var v := VoterRow(s.voters, k);
    forall p
      ensures Piece(s, v, keys, votes, p) ==
                Ok(Settlement(Settled(ProducerRow(s.producers, p), Share(s, v, p), VotesDelta(v, keys, votes, p)),
                              Share(s, v, p)))
    {
      PieceSucceeds(s, k, keys, votes, p);
    }
  }

  lemma ResettleKeepsSolvency(s: State, k: Name, keys: set<Name>, votes: int)
    requires Solvent(s) && VotesFit(s, k, votes)
    ensures Solvent(AfterResettle(s, k, keys, votes))
  {
    forall p ensures ProducerOk(AfterResettle(s, k, keys, votes), p) {
      ResettleProducer(s, k, keys, votes, p);
    }
    ResettleVoters(s, k, keys, votes);
    ResettleBooks(s, k, keys, votes);
  }

  lemma ResettleExact(s: State, k: Name, keys: set<Name>, votes: int)
    requires Solvent(s) && VotesFit(s, k, votes)
    ensures Resettle(s, k, keys, votes) == Ok(AfterResettle(s, k, keys, votes))
  {
    hide SettleRow, Debt, Solvent, PiecesOk, Rewards, PieceRows, Shares, SettledRows, VotesFit, Sum;
    var v := VoterRow(s.voters, k);
    ResettleRows(s, k, keys, votes);
    assert v.unclaimed + Sum(Rewards(s, v, keys, votes)) <= MAX_ASSET by {
      ResettleBooks(s, k, keys, votes);
    }
  }

  /** Settling a voter anywhere is never rejected, pays exactly the floors, and keeps solvency. */
  lemma ResettleSolvent(s: State, k: Name, keys: set<Name>, votes: int)
    requires Solvent(s) && VotesFit(s, k, votes)
    ensures Resettle(s, k, keys, votes) == Ok(AfterResettle(s, k, keys, votes))
    ensures Solvent(AfterResettle(s, k, keys, votes))
  {
    ResettleKeepsSolvency(s, k, keys, votes);
    ResettleExact(s, k, keys, votes);
  }
}
