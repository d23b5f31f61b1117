/** What the histories of the three contracts together say about each contract's own histories. */
module WorldHistories {
  import opened Common
  import opened World
  import opened WorldProofs
  import opened WorldRuns
  import Votes = VoteSpec
  import Rewards = RewardSpec
  import opened RewardInvariant
  import R = RewardRuns
  import Token
  import ElectionSpec

  // The action that flon.reward performs inside a transaction, if any.
  ghost function RewardPart(w: World, t: Transaction): Option<R.Action> {
    if Execute(w, t).Err? then None
    else
      match t
      case Registering(p) =>
        if Rewards.ProducerRow(w.rewards.producers, p).registered then None else Some(R.Registering(p))
      case RewardRegistering(p) => Some(R.Registering(p))
      case AddingVotes(k, amount) => Some(R.Changing(k, amount, true))
      case SubtractingVotes(k, amount, _) => Some(R.Changing(k, amount, false))
      case Voting(k, list) => Some(R.Voting(k, list))
      case Claiming(k) => Some(R.Claiming(k))
      case Transferring(from, to, amount) => if to == REWARD_ACCOUNT then Some(R.Depositing(from, amount)) else None
      case _ => None
  }

  ghost predicate Refines(w: World, t: Transaction) {
    match RewardPart(w, t)
    case None => Next(w, t).rewards == w.rewards
    case Some(a) => R.Admissible(w.rewards, a) && Next(w, t).rewards == R.Step(w.rewards, a)
  }

  // A payment reaches flon.reward only as a deposit.
  lemma PaymentRewards(w: World, from: Name, to: Name, amount: int)
    requires Pay(w, from, to, amount).Ok?
    ensures to == REWARD_ACCOUNT ==>
              && Rewards.Deposit(w.rewards, from, amount).Ok? && amount > 0
              && Pay(w, from, to, amount).value.rewards == Rewards.Deposit(w.rewards, from, amount).value
    ensures to != REWARD_ACCOUNT ==> Pay(w, from, to, amount).value.rewards == w.rewards
  {
    hide Rewards.Deposit;
  }

  lemma StakeRefines(w: World, t: Transaction)
    requires Coupled(w) && Execute(w, t).Ok? && (t.AddingVotes? || t.SubtractingVotes? || t.Voting?)
    ensures Refines(w, t)
  {
    hide Pay, Rewards.ChangeVote, Rewards.VoteProducer, Votes.CanUpdate, Votes.Updated, VoterCoupled;
    if t.AddingVotes? {
      PaymentRewards(w.(votes := Votes.AddVote(w.votes, t.k, t.amount).value), t.k, VOTE_ACCOUNT, t.amount);
    }
  }

  lemma PaymentRefines(w: World, t: Transaction)
    requires Execute(w, t).Ok? && (t.Claiming? || t.Transferring? || t.Refunding?)
    requires t.Refunding? ==> t.owner != REWARD_ACCOUNT
    ensures Refines(w, t)
  {
    hide Pay, Rewards.Claim, Rewards.Deposit;
    match t
    case Claiming(k) =>
      var claimed := Rewards.Claim(w.rewards, k).value;
      NoSelfPayment(w.(rewards := claimed.0), k, claimed.1);
      PaymentRewards(w.(rewards := claimed.0), REWARD_ACCOUNT, k, claimed.1);
    case Transferring(from, to, amount) => PaymentRewards(w, from, to, amount);
    case Refunding(owner, now) =>
      var paid := Votes.VoteRefund(w.votes, owner, now).value;
      PaymentRewards(w.(votes := paid.0), VOTE_ACCOUNT, owner, paid.1);
  }

  lemma NoSelfPayment(w: World, to: Name, amount: int)
    requires Pay(w, REWARD_ACCOUNT, to, amount).Ok?
    ensures to != REWARD_ACCOUNT
  {}

  lemma StepRefines(w: World, t: Transaction)
    requires WorldOk(w) && SignedByUser(w, t)
    ensures Refines(w, t)
  {
    if Execute(w, t).Ok? {
      CoupledParts(w);
      RefundsGoToUsers(w, t);
      hide WorldOk, SignedByUser, AddVote, SubVote, VoteProducer, Claim, VoteRefund, Pay, Coupled;
      match t
      case AddingVotes(_, _) => StakeRefines(w, t);
      case SubtractingVotes(_, _, _) => StakeRefines(w, t);
      case Voting(_, _) => StakeRefines(w, t);
      case Claiming(_) => PaymentRefines(w, t);
      case Transferring(_, _, _) => PaymentRefines(w, t);
      case Refunding(_, _) => PaymentRefines(w, t);
      case _ =>
    }
  }

  lemma RefundsGoToUsers(w: World, t: Transaction)
    requires WorldOk(w) && Execute(w, t).Ok?
    ensures t.Refunding? ==> t.owner != REWARD_ACCOUNT
  {
    hide Solvent, Coupled, Pay;
    if t.Refunding? {
      KnownVoter(w, t.owner);
    }
  }

  ghost function RewardHistory(start: World, ts: seq<Transaction>): seq<R.Action> {
    if ts == [] then []
    else
      var before := ts[..|ts| - 1];
      match RewardPart(Run(start, before), ts[|ts| - 1])
      case None => RewardHistory(start, before)
      case Some(a) => RewardHistory(start, before) + [a]
  }

  /** flon.reward's part of every history is an admissible history of flon.reward alone. */
  lemma {:induction false} RewardsRefine(start: World, ts: seq<Transaction>)
    requires Genesis(start) && UserRun(start, ts)
    ensures R.AdmissibleRun(RewardHistory(start, ts))
    ensures R.Run(RewardHistory(start, ts)) == Run(start, ts).rewards
  {
    hide WorldOk, Execute, Next, R.Step, R.Admissible, SignedByUser, Genesis, R.Run, RewardPart;
    if ts == [] {
      GenesisRewards(start);
      RunNothing();
    } else {
      var before, t := ts[..|ts| - 1], ts[|ts| - 1];
      var w := Run(start, before);
      RewardsRefine(start, before);
      RunOk(start, before);
      StepRefines(w, t);
      if RewardPart(w, t).Some? {
        RunAppend(RewardHistory(start, before), RewardPart(w, t).value);
      }
    }
  }

  lemma RunNothing()
    ensures R.Run([]) == Rewards.EMPTY
  {}

  lemma RunAppend(acts: seq<R.Action>, a: R.Action)
    ensures R.Run(acts + [a]) == R.Step(R.Run(acts), a)
    ensures R.AdmissibleRun(acts + [a]) <==> R.AdmissibleRun(acts) && R.Admissible(R.Run(acts), a)
  {
    hide R.Step, R.Admissible;
    assert (acts + [a])[..|acts|] == acts;
  }

  lemma GenesisRewards(start: World)
    requires Genesis(start)
    ensures start.rewards == Rewards.EMPTY
  {}

  /** So every voter of the system is paid pro rata, up to the rounding of settlements and rates. */
  lemma VotersPaidProRata(start: World, ts: seq<Transaction>, v: Name)
    requires Genesis(start) && UserRun(start, ts) && R.Pending(Run(start, ts).rewards, v) == 0
    ensures var acts, credit := RewardHistory(start, ts), R.Credited(Run(start, ts).rewards, v) as real;
            && credit <= R.Fair(acts, v)
            && R.Fair(acts, v) - R.SettlementCount(acts, v) as real
                 - R.WeightSum(acts, v) as real / Rewards.HIGH_PRECISION as real <= credit
  {
    RewardsRefine(start, ts);
    R.SettledVoterIsPaidProRata(RewardHistory(start, ts), v);
  }

  /** In every history the producer totals are in the range that the election's index key needs. */
  lemma ElectionInRange(start: World, ts: seq<Transaction>)
    requires Genesis(start) && UserRun(start, ts)
    ensures ElectionSpec.InRange(Run(start, ts).votes.producers)
  {
    hide WorldOk;
    RunOk(start, ts);
    var producers := Run(start, ts).votes.producers;
    forall p | p in producers ensures 0 <= producers[p].totalVotes <= INT64_MAX {
      TotalBounds(Run(start, ts), p);
    }
  }

  // ---- registration and activation over histories ----

  // What the last successful registration or deactivation of the producer made of it.
  ghost function LastToggle(start: World, ts: seq<Transaction>, p: Name): Option<bool> {
    if ts == [] then None
    else
      var before, t := ts[..|ts| - 1], ts[|ts| - 1];
      if t == Registering(p) then Some(true)
      else if t == Deactivating(p) && LastToggle(start, before, p).Some? then Some(false)
      else LastToggle(start, before, p)
  }

  // The activation time of the last configuration that came while it was still open.
  ghost function ActivationTime(start: World, ts: seq<Transaction>): int {
    if ts == [] then 0
    else
      var time, t := ActivationTime(start, ts[..|ts| - 1]), ts[|ts| - 1];
      if t.Configuring? && t.activation > t.now && (time == 0 || time > t.now) then t.activation else time
  }

  // What one transaction does to activity and to the activation time.
  lemma ToggleEffect(w: World, t: Transaction, p: Name)
    requires WorldOk(w) && SignedByUser(w, t)
    ensures var x := Next(w, t);
            && (p in x.votes.producers <==> p in w.votes.producers || t == Registering(p))
            && (p in x.votes.producers ==>
                  (x.votes.producers[p].active <==>
                     || t == Registering(p)
                     || (t != Deactivating(p) && p in w.votes.producers && w.votes.producers[p].active)))
    ensures Next(w, t).votes.electionActivated ==
              var time := w.votes.electionActivated;
              if t.Configuring? && t.activation > t.now && (time == 0 || time > t.now) then t.activation else time
  {
    hide WorldOk, Rewards.ChangeVote, Rewards.VoteProducer, Rewards.Claim, Rewards.Deposit, Votes.CanUpdate;
  }

  /**
   * A producer is active exactly when its last registration came after its last deactivation, and an
   * accepted configuration leaves its activation time until that has passed.
   */
  lemma {:induction false} ActivityHistory(start: World, ts: seq<Transaction>, p: Name)
    requires Genesis(start) && UserRun(start, ts)
    ensures var votes := Run(start, ts).votes;
            && (p in votes.producers <==> LastToggle(start, ts, p).Some?)
            && (p in votes.producers ==> votes.producers[p].active == LastToggle(start, ts, p).value)
            && votes.electionActivated == ActivationTime(start, ts)
  {
    hide WorldOk, Next, SignedByUser, Genesis;
    if ts == [] {
      GenesisVotes(start);
    } else {
      var before, t := ts[..|ts| - 1], ts[|ts| - 1];
      ActivityHistory(start, before, p);
      RunOk(start, before);
      ToggleEffect(Run(start, before), t, p);
    }
  }

  lemma GenesisVotes(start: World)
    requires Genesis(start)
    ensures start.votes == Votes.State(0, 0, map[], map[], map[])
  {}

  // ---- a history that ends in a blocked revote ----

  lemma WorldAppend(start: World, ts: seq<Transaction>, t: Transaction)
    ensures Run(start, ts + [t]) == Next(Run(start, ts), t)
    ensures UserRun(start, ts + [t]) <==> UserRun(start, ts) && SignedByUser(Run(start, ts), t)
  {
    hide Next, SignedByUser;
    assert (ts + [t])[..|ts|] == ts;
  }

  // Two producers register.
  lemma TwoRegistered(start: World, p: Name, q: Name)
    requires Genesis(start) && p < q
    ensures var w := Next(Next(start, Registering(p)), Registering(q));
            && WorldOk(w) && w.ledger == start.ledger && w.votes.voters == map[]
            && w.votes.producers == map[p := Votes.Producer(0, true), q := Votes.Producer(0, true)]
  {
    hide WorldOk;
    GenesisOk(start);
    NextOk(start, Registering(p));
    NextOk(Next(start, Registering(p)), Registering(q));
  }

  // A voter stakes ten votes ...
  lemma TenStaked(w: World, k: Name)
    requires WorldOk(w) && User(k) && k in w.ledger.accounts && Token.Balance(w.ledger, k) >= 10
    requires w.votes.voters == map[]
    ensures var y := Next(w, AddingVotes(k, 10));
            && WorldOk(y) && y.votes.voters == map[k := Votes.Voter(10, [])]
            && y.votes.producers == w.votes.producers && y.ledger.accounts == w.ledger.accounts
  {
    hide WorldOk, AddVote;
    NextOk(w, AddingVotes(k, 10));
    AddVoteWorld(w, k, 10);
    StakedOnly(w, k);
  }

  // ... and gives them to the first producer.
  lemma TenVoted(y: World, k: Name, p: Name, q: Name)
    requires WorldOk(y) && y.votes.voters == map[k := Votes.Voter(10, [])] && p < q
    requires y.votes.producers == map[p := Votes.Producer(0, true), q := Votes.Producer(0, true)]
    requires User(k) && k in y.ledger.accounts
    ensures var x := Next(y, Voting(k, [p]));
            && WorldOk(x) && x.votes.voters == map[k := Votes.Voter(10, [p])]
            && x.votes.producers.Keys == {p, q} && x.votes.producers[p].active && x.votes.producers[q].active
  {
    hide WorldOk, VoteProducer;
    NextOk(y, Voting(k, [p]));
    VoteProducerWorld(y, k, [p]);
    assert Elements([p]) == {p} && [p] != [];
    VotedOnly(y, k, p, q);
  }

  lemma StakedOnly(w: World, k: Name)
    requires w.votes.voters == map[] && AddVote(w, k, 10).Ok?
    ensures var y := AddVote(w, k, 10).value;
            && y.votes.voters == map[k := Votes.Voter(10, [])] && y.votes.producers == w.votes.producers
            && y.ledger.accounts == w.ledger.accounts
  {
    hide Rewards.ChangeVote;
  }

  lemma VotedOnly(y: World, k: Name, p: Name, q: Name)
    requires y.votes.voters == map[k := Votes.Voter(10, [])] && VoteProducer(y, k, [p]).Ok?
    requires y.votes.producers == map[p := Votes.Producer(0, true), q := Votes.Producer(0, true)]
    ensures var x := VoteProducer(y, k, [p]).value;
            && x.votes.voters == map[k := Votes.Voter(10, [p])] && x.ledger == y.ledger
            && x.votes.producers.Keys == {p, q} && x.votes.producers[p].active && x.votes.producers[q].active
  {
    hide Rewards.VoteProducer;
  }

  ghost function BlockedHistory(k: Name, p: Name, q: Name): seq<Transaction> {
    [] + [Registering(p)] + [Registering(q)] + [AddingVotes(k, 10)] + [Voting(k, [p])] + [Deactivating(p)]
  }

  /** From genesis, any funded user can come to a state in which adding a producer to the kept one is blocked,
      though dropping the kept one is not. */
  lemma KeptInactiveReachable(start: World, k: Name, p: Name, q: Name)
    requires Genesis(start) && User(k) && k in start.ledger.accounts && Token.Balance(start.ledger, k) >= 10 && p < q
    ensures UserRun(start, BlockedHistory(k, p, q))
    ensures var w := Run(start, BlockedHistory(k, p, q));
            && WorldOk(w) && AcceptedByNames(w, k, [p, q])
            && VoteProducer(w, k, [p, q]).Err? && VoteProducer(w, k, [q]).Ok?
  {
    hide WorldOk, Next, Run, UserRun, Genesis;
    var w0 := Next(Next(start, Registering(p)), Registering(q));
    TwoRegistered(start, p, q);
    TenStaked(w0, k);
    var w1 := Next(w0, AddingVotes(k, 10));
    TenVoted(w1, k, p, q);
    BlockedRevote(Next(w1, Voting(k, [p])), k, p, q);
    BlockedRun(start, k, p, q);
  }

  lemma BlockedRun(start: World, k: Name, p: Name, q: Name)
    requires Genesis(start) && User(k) && k in start.ledger.accounts
    requires k in Next(Next(Next(start, Registering(p)), Registering(q)), AddingVotes(k, 10)).ledger.accounts
    requires Next(Next(start, Registering(p)), Registering(q)).ledger == start.ledger
    ensures UserRun(start, BlockedHistory(k, p, q))
    ensures Run(start, BlockedHistory(k, p, q)) ==
              Next(Next(Next(Next(Next(start, Registering(p)), Registering(q)), AddingVotes(k, 10)), Voting(k, [p])),
                   Deactivating(p))
  {
    hide Next;
    WorldAppend(start, [], Registering(p));
    WorldAppend(start, [] + [Registering(p)], Registering(q));
    var two := [] + [Registering(p)] + [Registering(q)];
    WorldAppend(start, two, AddingVotes(k, 10));
    WorldAppend(start, two + [AddingVotes(k, 10)], Voting(k, [p]));
    WorldAppend(start, two + [AddingVotes(k, 10)] + [Voting(k, [p])], Deactivating(p));
  }

  lemma BlockedRevote(w: World, k: Name, p: Name, q: Name)
    requires WorldOk(w) && p < q && w.votes.voters == map[k := Votes.Voter(10, [p])]
    requires w.votes.producers.Keys == {p, q} && w.votes.producers[p].active && w.votes.producers[q].active
    ensures var x := Next(w, Deactivating(p));
            && WorldOk(x) && AcceptedByNames(x, k, [p, q])
            && VoteProducer(x, k, [p, q]).Err? && VoteProducer(x, k, [q]).Ok?
  {
    hide WorldOk, VoteProducer;
    var x := Next(w, Deactivating(p));
    NextOk(w, Deactivating(p));
    assert Elements([p]) == {p} && Elements([p, q]) == {p, q} && [p] != [p, q];
    assert Elements([p, q]) - Elements([p]) == {q};
    assert p in [p, q] && p in x.votes.voters[k].producers && !x.votes.producers[p].active;
    KeptInactiveProducerBlocksRevote(x, k, [p, q]);
    assert Elements([q]) == {q} && [p][0] != [q][0];
    VoteProducerWorld(x, k, [q]);
  }
}
