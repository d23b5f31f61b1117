/** The remaining transactions, and what holds after every sequence of transactions. */
module WorldRuns {
  import opened Common
  import opened Sums
  import opened World
  import opened WorldProofs
  import Votes = VoteSpec
  import Rewards = RewardSpec
  import opened RewardInvariant
  import Actions = RewardActions
  import Token

  // ---- changes of flon.reward that leave votes alone ----

  ghost predicate SameVotes(s: Rewards.State, t: Rewards.State) {
    && t.voters.Keys == s.voters.Keys
    && (forall k :: k in s.voters ==>
          t.voters[k].votes == s.voters[k].votes && t.voters[k].producers.Keys == s.voters[k].producers.Keys)
    && (forall p :: Rewards.ProducerRow(t.producers, p).votes == Rewards.ProducerRow(s.producers, p).votes)
  }

  lemma SameVotesCoupled(w: World, rewards: Rewards.State)
    requires Coupled(w) && SameVotes(w.rewards, rewards)
    ensures Coupled(w.(rewards := rewards))
  {
    var x := w.(rewards := rewards);
    forall k ensures VoterCoupled(x, k) {
      assert VoterCoupled(w, k);
    }
    assert AllVotes(rewards.voters) == AllVotes(w.rewards.voters);
    forall p ensures Total(x.votes.producers, p) == Rewards.ProducerRow(rewards.producers, p).votes {
      assert Total(w.votes.producers, p) == Rewards.ProducerRow(w.rewards.producers, p).votes;
    }
  }

  lemma LedgerCoupled(w: World, ledger: Token.Ledger)
    requires Coupled(w) && ledger.accounts == w.ledger.accounts
    ensures Coupled(w.(ledger := ledger))
  {
    VotersKept(w, w.(ledger := ledger));
  }

  // ---- claims ----

  ghost function Allocating(producers: map<Name, Rewards.Producer>): map<Name, int> {
    map p | p in producers :: producers[p].allocatingRewards
  }

  ghost function Unclaimed(voters: map<Name, Rewards.Voter>): map<Name, int> {
    map v | v in voters :: voters[v].unclaimed
  }

  /** Deposits minus claims is exactly what is still allocating plus what voters have not claimed. */
  lemma LiabilitiesAreOpenRewards(s: Rewards.State)
    requires Solvent(s)
    ensures s.totalRewards - Sum(Claimed(s.voters)) ==
              Sum(Allocating(s.producers)) + Sum(Unclaimed(s.voters))
    ensures 0 <= Sum(Claimed(s.voters)) <= s.totalRewards
  {
    hide Debt;
    var allocating, unclaimed := Allocating(s.producers), Unclaimed(s.voters);
    forall p | p in s.producers
      ensures Deposited(s.producers)[p] == allocating[p] + 1 * Allocated(s.producers)[p] && allocating[p] >= 0
    {
      assert ProducerOk(s, p);
    }
    SumLinear(allocating, Allocated(s.producers), 1, Deposited(s.producers));
    SumLinear(unclaimed, Claimed(s.voters), 1, Earned(s.voters));
    forall v | v in s.voters ensures unclaimed[v] >= 0 && Claimed(s.voters)[v] >= 0 {
      assert VoterOk(s, s.voters[v]);
    }
    SumNonNegative(allocating);
    SumNonNegative(unclaimed);
    SumNonNegative(Claimed(s.voters));
  }

  lemma PayoutView(s: Rewards.State, k: Name)
    requires k in s.voters
    ensures k in Actions.BeforePayout(s, k).voters
    ensures var t := Actions.AfterClaim(s, k);
            && SameVotes(s, t) && t.totalRewards == s.totalRewards
            && Sum(Claimed(t.voters)) == Sum(Claimed(s.voters)) + Actions.BeforePayout(s, k).voters[k].unclaimed
  {
    hide AfterResettle, Actions.BeforePayout, SameVotes;
    var mid := Actions.BeforePayout(s, k);
    ClaimedKept(s, k);
    MidView(s, k);
    ReplaceClaimed(mid.voters, k, Actions.Paid(mid.voters[k]));
    PaidSame(s, k);
  }

  // Settling before the payout changes no votes and no claims.
  lemma MidView(s: Rewards.State, k: Name)
    requires k in s.voters
    ensures var mid := Actions.BeforePayout(s, k);
            SameVotes(s, mid) && mid.totalRewards == s.totalRewards
              && Sum(Claimed(mid.voters)) == Sum(Claimed(s.voters))
  {
    hide AfterResettle;
    var v := s.voters[k];
    if v.votes > 0 {
      ResettleView(s, k, v.producers.Keys, v.votes);
    }
  }

  lemma PaidSame(s: Rewards.State, k: Name)
    requires k in s.voters && k in Actions.BeforePayout(s, k).voters && SameVotes(s, Actions.BeforePayout(s, k))
    ensures SameVotes(s, Actions.AfterClaim(s, k))
  {
    hide Actions.BeforePayout;
  }

  lemma ClaimedKept(s: Rewards.State, k: Name)
    requires k in s.voters
    ensures k in Actions.BeforePayout(s, k).voters
            && Actions.BeforePayout(s, k).voters[k].claimed == s.voters[k].claimed
  {}

  /** claimrewards succeeds exactly when there is something to claim: the contract can always pay it. */
  lemma ClaimWorld(w: World, k: Name)
    requires WorldOk(w)
    ensures Claim(w, k).Ok? <==> k in w.rewards.voters && Actions.Claimable(w.rewards, k) > 0
    ensures Claim(w, k).Ok? ==>
              var x := Claim(w, k).value;
              && WorldOk(x) && VoteSlack(x) == VoteSlack(w) && RewardSlack(x) == RewardSlack(w)
              && Token.Balance(x.ledger, k) == Token.Balance(w.ledger, k) + Actions.Claimable(w.rewards, k)
              && x.votes == w.votes
  {
    hide WorldOk;
    hide Solvent;
    hide Coupled;
    hide Rewards.Claim;
    hide Pay;
    hide Actions.AfterClaim;
    hide SameVotes;
    CoupledParts(w);
    Actions.ClaimSolvent(w.rewards, k);
    if Rewards.Claim(w.rewards, k).Ok? {
      RewardVoter(w, k);
      Actions.BeforePayoutSolvent(w.rewards, k);
      PayoutView(w.rewards, k);
      var settled := w.(rewards := Actions.AfterClaim(w.rewards, k));
      LiabilitiesAreOpenRewards(settled.rewards);
      SameVotesCoupled(w, settled.rewards);
      PayUsers(settled, REWARD_ACCOUNT, k, Actions.Claimable(w.rewards, k));
      var x := Pay(settled, REWARD_ACCOUNT, k, Actions.Claimable(w.rewards, k)).value;
      LedgerCoupled(settled, x.ledger);
      WorldFrom(x);
    }
  }

  lemma RewardVoter(w: World, k: Name)
    requires Coupled(w) && k in w.rewards.voters
    ensures User(k) && k in w.ledger.accounts
  {
    assert VoterCoupled(w, k);
  }

  // ---- transfers ----

  lemma DepositView(s: Rewards.State, from: Name, amount: int)
    requires Rewards.Deposit(s, from, amount).Ok?
    ensures var t := Rewards.Deposit(s, from, amount).value;
            SameVotes(s, t) && t.totalRewards == s.totalRewards + amount && t.voters == s.voters
  {}

  /**
   * A user's transfer: only a registered producer can pay into flon.reward, such a payment backs
   * exactly the liabilities it creates, and a payment into flon.vote only adds spare tokens.
   */
  lemma PayWorld(w: World, from: Name, to: Name, amount: int)
    requires WorldOk(w) && User(from)
    ensures Pay(w, from, to, amount).Ok? <==>
              && from != to && to in w.ledger.accounts && 0 < amount <= Token.Balance(w.ledger, from)
              && (to == REWARD_ACCOUNT ==>
                    && Rewards.ProducerRow(w.rewards.producers, from).registered
                    && w.rewards.totalRewards + amount <= MAX_ASSET)
    ensures Pay(w, from, to, amount).Ok? ==>
              var x := Pay(w, from, to, amount).value;
              && WorldOk(x) && x.votes == w.votes && RewardSlack(x) == RewardSlack(w)
              && VoteSlack(x) == VoteSlack(w) + if to == VOTE_ACCOUNT then amount else 0
  {
    hide WorldOk;
    hide Solvent;
    hide Coupled;
    hide SameVotes;
    hide Rewards.Deposit;
    CoupledParts(w);
    Token.TransferLedger(w.ledger, from, to, amount);
    if Token.Transfer(w.ledger, from, to, amount).Ok? {
      var ledger := Token.Transfer(w.ledger, from, to, amount).value;
      if to == REWARD_ACCOUNT {
        Actions.DepositSolvent(w.rewards, from, amount);
        if Rewards.Deposit(w.rewards, from, amount).Ok? {
          var paid := w.(rewards := Rewards.Deposit(w.rewards, from, amount).value);
          DepositView(w.rewards, from, amount);
          SameVotesCoupled(w, paid.rewards);
          LedgerCoupled(paid, ledger);
          WorldFrom(paid.(ledger := ledger));
        }
      } else {
        LedgerCoupled(w, ledger);
        WorldFrom(w.(ledger := ledger));
      }
    }
  }

  // ---- everything else ----

  lemma RegisterWorld(w: World, p: Name)
    requires WorldOk(w)
    ensures WorldOk(RegProducer(w, p)) && WorldOk(w.(rewards := Rewards.RegProducer(w.rewards, p)))
    ensures var x := RegProducer(w, p); VoteSlack(x) == VoteSlack(w) && RewardSlack(x) == RewardSlack(w)
    ensures var x := w.(rewards := Rewards.RegProducer(w.rewards, p));
            VoteSlack(x) == VoteSlack(w) && RewardSlack(x) == RewardSlack(w)
    ensures Rewards.ProducerRow(RegProducer(w, p).rewards.producers, p).registered
  {
    hide Solvent;
    hide WorldOk;
    hide Coupled;
    CoupledParts(w);
    Actions.RegProducerSolvent(w.rewards, p);
    assert SameVotes(w.rewards, Rewards.RegProducer(w.rewards, p));
    SameVotesCoupled(w, Rewards.RegProducer(w.rewards, p));
    WorldFrom(w.(rewards := Rewards.RegProducer(w.rewards, p)));
    var y := w.(rewards := RegProducer(w, p).rewards);
    ProducerSetGrows(y, RegProducer(w, p));
    WorldFrom(RegProducer(w, p));
  }

  // Adding producers without votes or changing activity keeps the coupling.
  lemma ProducerSetGrows(w: World, x: World)
    requires Coupled(w) && x == w.(votes := w.votes.(producers := x.votes.producers))
    requires w.votes.producers.Keys <= x.votes.producers.Keys
    requires forall p :: Total(x.votes.producers, p) == Total(w.votes.producers, p)
    ensures Coupled(x)
  {
    forall k ensures VoterCoupled(x, k) {
      assert VoterCoupled(w, k);
    }
    forall p ensures Total(x.votes.producers, p) == Rewards.ProducerRow(x.rewards.producers, p).votes {
      assert Total(w.votes.producers, p) == Rewards.ProducerRow(w.rewards.producers, p).votes;
    }
  }

  lemma SystemOnlyWorld(w: World, p: Name, activation: int, now: int)
    requires WorldOk(w)
    ensures Votes.Deactivate(w.votes, p).Ok? ==>
              var x := w.(votes := Votes.Deactivate(w.votes, p).value);
              WorldOk(x) && VoteSlack(x) == VoteSlack(w) && RewardSlack(x) == RewardSlack(w)
    ensures Votes.Configure(w.votes, activation, now).Ok? ==>
              var x := w.(votes := Votes.Configure(w.votes, activation, now).value);
              WorldOk(x) && VoteSlack(x) == VoteSlack(w) && RewardSlack(x) == RewardSlack(w)
  {
    hide Solvent;
    hide WorldOk;
    hide Coupled;
    CoupledParts(w);
    if Votes.Deactivate(w.votes, p).Ok? {
      var x := w.(votes := Votes.Deactivate(w.votes, p).value);
      ProducerSetGrows(w, x);
      WorldFrom(x);
    }
    if Votes.Configure(w.votes, activation, now).Ok? {
      var x := w.(votes := Votes.Configure(w.votes, activation, now).value);
      VotersKept(w, x);
      WorldFrom(x);
    }
  }

  lemma TokenOnlyWorld(w: World, ledger: Token.Ledger)
    requires WorldOk(w) && Token.LedgerOk(ledger)
    requires ledger.accounts == w.ledger.accounts && ledger.issuer == w.ledger.issuer
    requires forall a :: !User(a) ==> Token.Balance(ledger, a) == Token.Balance(w.ledger, a)
    ensures var x := w.(ledger := ledger);
            WorldOk(x) && VoteSlack(x) == VoteSlack(w) && RewardSlack(x) == RewardSlack(w)
  {
    hide Solvent;
    hide WorldOk;
    hide Coupled;
    CoupledParts(w);
    LedgerCoupled(w, ledger);
    WorldFrom(w.(ledger := ledger));
  }

  lemma TokenParts(w: World)
    requires WorldOk(w)
    ensures Token.LedgerOk(w.ledger) && User(w.ledger.issuer)
  {}

  lemma IssuanceWorld(w: World, t: Transaction)
    requires WorldOk(w) && (t.Issuing? || t.Retiring? || t.Opening? || t.Closing?)
    ensures Execute(w, t).Ok? ==>
              var x := Execute(w, t).value;
              WorldOk(x) && VoteSlack(x) == VoteSlack(w) && RewardSlack(x) == RewardSlack(w)
  {
    hide WorldOk, VoteSlack, RewardSlack, Token.LedgerOk;
    TokenParts(w);
    match t
    case Issuing(to, amount) =>
      Token.IssueLedger(w.ledger, to, amount);
      if Execute(w, t).Ok? { TokenOnlyWorld(w, Token.Issue(w.ledger, to, amount).value); }
    case Retiring(amount) =>
      Token.RetireLedger(w.ledger, amount);
      if Execute(w, t).Ok? { TokenOnlyWorld(w, Token.Retire(w.ledger, amount).value); }
    case Opening(owner) =>
      Token.OpenCloseLedger(w.ledger, owner);
      if Execute(w, t).Ok? { TokenOnlyWorld(w, Token.Open(w.ledger, owner).value); }
    case Closing(owner) =>
      Token.OpenCloseLedger(w.ledger, owner);
      if Execute(w, t).Ok? { TokenOnlyWorld(w, Token.Close(w.ledger, owner).value); }
  }

  // ---- runs ----

  // A failed transaction leaves no trace.
  ghost function Next(w: World, t: Transaction): World {
    match Execute(w, t) case Ok(x) => x case Err(_) => w
  }

  ghost predicate Genesis(w: World) {
    && w.votes == Votes.State(0, 0, map[], map[], map[]) && w.rewards == Rewards.EMPTY
    && Token.LedgerOk(w.ledger) && {VOTE_ACCOUNT, REWARD_ACCOUNT} <= w.ledger.accounts && User(w.ledger.issuer)
  }

  ghost function Run(start: World, ts: seq<Transaction>): World {
    if ts == [] then start else Next(Run(start, ts[..|ts| - 1]), ts[|ts| - 1])
  }

  ghost predicate UserRun(start: World, ts: seq<Transaction>) {
    ts != [] ==> UserRun(start, ts[..|ts| - 1]) && SignedByUser(Run(start, ts[..|ts| - 1]), ts[|ts| - 1])
  }

  lemma GenesisOk(w: World)
    requires Genesis(w)
    ensures WorldOk(w)
  {
    EmptySolvent();
    Token.BalanceWithinSupply(w.ledger, VOTE_ACCOUNT);
    Token.BalanceWithinSupply(w.ledger, REWARD_ACCOUNT);
    assert Staked(w.votes.refunds) == map[] && Claimed(w.rewards.voters) == map[]
           && AllVotes(w.rewards.voters) == map[];
  }

  /**
   * Every transaction keeps solvency, the ledger, coupling and custody. flon.reward's spare tokens
   * never change; flon.vote's change only by what outsiders send it.
   */
  lemma NextOk(w: World, t: Transaction)
    requires WorldOk(w) && SignedByUser(w, t)
    ensures WorldOk(Next(w, t)) && RewardSlack(Next(w, t)) == RewardSlack(w)
    ensures VoteSlack(Next(w, t)) ==
              VoteSlack(w) + if t.Transferring? && t.to == VOTE_ACCOUNT && Execute(w, t).Ok? then t.amount else 0
  {
    hide WorldOk;
    hide VoteSlack;
    hide RewardSlack;
    match t
    case Registering(p) => RegisterWorld(w, p);
    case RewardRegistering(p) => RegisterWorld(w, p);
    case Deactivating(p) => SystemOnlyWorld(w, p, 0, 0);
    case AddingVotes(k, amount) => AddVoteWorld(w, k, amount);
    case SubtractingVotes(k, amount, now) => SubVoteWorld(w, k, amount, now);
    case Voting(k, list) => VoteProducerWorld(w, k, list);
    case Refunding(owner, now) => VoteRefundWorld(w, owner, now);
    case Claiming(k) => ClaimWorld(w, k);
    case Transferring(from, to, amount) => PayWorld(w, from, to, amount);
    case Configuring(activation, now) => SystemOnlyWorld(w, 0, activation, now);
    case _ => IssuanceWorld(w, t);
  }

  /** After every sequence of transactions both contracts agree and everybody can be paid. */
  lemma {:induction false} RunOk(start: World, ts: seq<Transaction>)
    requires Genesis(start) && UserRun(start, ts)
    ensures WorldOk(Run(start, ts)) && RewardSlack(Run(start, ts)) == RewardSlack(start)
    ensures VoteSlack(Run(start, ts)) >= VoteSlack(start)
  {
    if ts == [] {
      GenesisOk(start);
    } else {
      RunOk(start, ts[..|ts| - 1]);
      TransferPositive(Run(start, ts[..|ts| - 1]), ts[|ts| - 1]);
      NextOk(Run(start, ts[..|ts| - 1]), ts[|ts| - 1]);
    }
  }

  lemma TransferPositive(w: World, t: Transaction)
    ensures t.Transferring? && Execute(w, t).Ok? ==> t.amount > 0
  {}

  // ---- refunds over histories ----

  // Transaction i of the run is the subvote that created the refund r of owner.
  ghost predicate RequestedAt(start: World, ts: seq<Transaction>, i: nat, owner: Name, r: Votes.Refund) {
    && i < |ts| && ts[i].SubtractingVotes? && ts[i].k == owner && ts[i].amount == r.staked
    && r.requestSec == ts[i].now / Votes.MICROSECONDS
    && Execute(Run(start, ts[..i]), ts[i]).Ok?
  }

  /** Every pending refund was created by an earlier successful subvote of its owner. */
  lemma {:induction false} RefundOrigin(start: World, ts: seq<Transaction>, owner: Name)
    requires Genesis(start) && UserRun(start, ts) && owner in Run(start, ts).votes.refunds
    ensures exists i: nat :: RequestedAt(start, ts, i, owner, Run(start, ts).votes.refunds[owner])
  {
    hide WorldOk, Execute, Genesis;
    assert ts != [] by {
      NoRefundsAtGenesis(start);
    }
    var before, t := ts[..|ts| - 1], ts[|ts| - 1];
    var w := Run(start, before);
    var r := Run(start, ts).votes.refunds[owner];
    RunOk(start, before);
    RefundKept(w, t, owner);
    if t.SubtractingVotes? && t.k == owner && Execute(w, t).Ok? {
      assert RequestedAt(start, ts, |ts| - 1, owner, r);
    } else {
      RefundOrigin(start, before, owner);
      var i: nat :| RequestedAt(start, before, i, owner, r);
      assert before[..i] == ts[..i];
      assert RequestedAt(start, ts, i, owner, r);
    }
  }

  lemma NoRefundsAtGenesis(start: World)
    requires Genesis(start)
    ensures start.votes.refunds == map[]
  {}

  lemma RefundKept(w: World, t: Transaction, owner: Name)
    requires WorldOk(w) && owner in Next(w, t).votes.refunds
    ensures if t.SubtractingVotes? && t.k == owner && Execute(w, t).Ok?
            then Next(w, t).votes.refunds[owner] == Votes.Refund(t.amount, t.now / Votes.MICROSECONDS)
            else owner in w.votes.refunds && Next(w, t).votes.refunds[owner] == w.votes.refunds[owner]
  {
    hide WorldOk;
    hide Rewards.ChangeVote;
    hide Rewards.VoteProducer;
    hide Rewards.Claim;
    hide Rewards.Deposit;
    hide Votes.CanUpdate;
    hide Votes.Updated;
  }

  /** A refund is paid no earlier than three days after the second in which its owner's subvote ran. */
  lemma RefundWaitsThreeDays(start: World, ts: seq<Transaction>, owner: Name, now: int)
    requires Genesis(start) && UserRun(start, ts)
    requires Execute(Run(start, ts), Refunding(owner, now)).Ok?
    ensures owner in Run(start, ts).votes.refunds
    ensures exists i: nat :: RequestedAt(start, ts, i, owner, Run(start, ts).votes.refunds[owner])
              && now >= (ts[i].now / 1_000_000 + 259_200) * 1_000_000
  {
    hide WorldOk;
    RunOk(start, ts);
    VoteRefundWorld(Run(start, ts), owner, now);
    RefundOrigin(start, ts, owner);
    var i: nat :| RequestedAt(start, ts, i, owner, Run(start, ts).votes.refunds[owner]);
  }

  // ---- machine integers ----

  /** No rate, product or total of the reward accounting leaves its machine integer. */
  lemma NoOverflow(w: World, k: Name, p: Name)
    requires WorldOk(w)
    ensures var row := Rewards.ProducerRow(w.rewards.producers, p);
            && 0 <= row.rewardsPerVote <= w.rewards.totalRewards * Rewards.HIGH_PRECISION < 0x400_0000_0000_0000 * TWO64
            && 0 <= Debt(Rewards.VoterRow(w.rewards.voters, k), p, row.rewardsPerVote)
                 <= row.allocatingRewards * Rewards.HIGH_PRECISION < 0x400_0000_0000_0000 * TWO64
            && 0 <= row.votes <= w.votes.totalStake <= MAX_ASSET
            && Total(w.votes.producers, p) == row.votes
  {
    hide Debt;
    VoterShare(w.rewards, k, p);
    RowBounds(w.rewards, p);
  }

  // ---- what the iterator comparison in voteproducer costs ----

  // What a list walk comparing names would accept: kept producers need not be active.
  ghost predicate AcceptedByNames(w: World, k: Name, list: seq<Name>) {
    && |list| <= 30 && StrictlySorted(list)
    && k in w.votes.voters && w.votes.voters[k].producers != list
    && Elements(list) <= w.votes.producers.Keys
    && (w.votes.voters[k].votes > 0 ==>
          AllActive(w.votes.producers, Elements(list) - Elements(w.votes.voters[k].producers)))
  }

  /** The action rejects a revote that a name comparison accepts exactly when a kept producer is inactive. */
  lemma KeptInactiveProducerBlocksRevote(w: World, k: Name, list: seq<Name>)
    requires WorldOk(w) && AcceptedByNames(w, k, list)
    ensures VoteProducer(w, k, list).Err? <==>
              && w.votes.voters[k].votes > 0
              && exists p :: p in list && p in w.votes.voters[k].producers && !w.votes.producers[p].active
  {
    hide WorldOk;
    VoteProducerWorld(w, k, list);
    var olds := w.votes.voters[k].producers;
    if w.votes.voters[k].votes > 0 && !AllActive(w.votes.producers, Elements(list)) {
      var p :| p in Elements(list) && !w.votes.producers[p].active;
      assert p in Elements(olds);
    }
  }
}
