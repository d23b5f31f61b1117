/**
 * Transactions across flon.system, flon.reward and flon.token: the system action, its inline
 * actions in order, and the notification of flon.reward; any failure undoes the whole transaction.
 */
module World {
  import opened Common
  import opened Sums
  import Votes = VoteSpec
  import Rewards = RewardSpec
  import Invariant = RewardInvariant
  import Token

  datatype World = World(votes: Votes.State, rewards: Rewards.State, ledger: Token.Ledger)

  datatype Error =
    | SystemRejected(system: Votes.Error)
    | RewardRejected(reward: Rewards.Error)
    | TransferRejected(token: Token.Error)

  /** A token transfer together with flon.reward's reaction to receiving tokens. */
  function Pay(w: World, from: Name, to: Name, amount: int): Result<World, Error> {
    match Token.Transfer(w.ledger, from, to, amount)
    case Err(e) => Err(TransferRejected(e))
    case Ok(ledger) =>
      if to == REWARD_ACCOUNT then
        match Rewards.Deposit(w.rewards, from, amount)
        case Err(e) => Err(RewardRejected(e))
        case Ok(rewards) => Ok(w.(ledger := ledger, rewards := rewards))
      else Ok(w.(ledger := ledger))
  }

  // regproducer: registers with flon.reward first unless that was done before.
  function RegProducer(w: World, p: Name): World {
    w.(votes := Votes.Register(w.votes, p),
       rewards := if Rewards.ProducerRow(w.rewards.producers, p).registered then w.rewards
                  else Rewards.RegProducer(w.rewards, p))
  }

  ghost function AddVote(w: World, k: Name, amount: int): Result<World, Error> {
    match Votes.AddVote(w.votes, k, amount)
    case Err(e) => Err(SystemRejected(e))
    case Ok(votes) =>
      match Pay(w.(votes := votes), k, VOTE_ACCOUNT, amount)
      case Err(e) => Err(e)
      case Ok(paid) =>
        match Rewards.ChangeVote(paid.rewards, k, amount, true)
        case Err(e) => Err(RewardRejected(e))
        case Ok(rewards) => Ok(paid.(rewards := rewards))
  }

  ghost function SubVote(w: World, k: Name, amount: int, now: int): Result<World, Error> {
    match Votes.SubVote(w.votes, k, amount, now)
    case Err(e) => Err(SystemRejected(e))
    case Ok(votes) =>
      match Rewards.ChangeVote(w.rewards, k, amount, false)
      case Err(e) => Err(RewardRejected(e))
      case Ok(rewards) => Ok(w.(votes := votes, rewards := rewards))
  }

  ghost function VoteProducer(w: World, k: Name, list: seq<Name>): Result<World, Error> {
    match Votes.VoteProducer(w.votes, k, list)
    case Err(e) => Err(SystemRejected(e))
    case Ok(votes) =>
      match Rewards.VoteProducer(w.rewards, k, list)
      case Err(e) => Err(RewardRejected(e))
      case Ok(rewards) => Ok(w.(votes := votes, rewards := rewards))
  }

  function VoteRefund(w: World, owner: Name, now: int): Result<World, Error> {
    match Votes.VoteRefund(w.votes, owner, now)
    case Err(e) => Err(SystemRejected(e))
    case Ok(r) => Pay(w.(votes := r.0), VOTE_ACCOUNT, owner, r.1)
  }

  ghost function Claim(w: World, k: Name): Result<World, Error> {
    match Rewards.Claim(w.rewards, k)
    case Err(e) => Err(RewardRejected(e))
    case Ok(r) => Pay(w.(rewards := r.0), REWARD_ACCOUNT, k, r.1)
  }

  datatype Transaction =
    | Registering(p: Name)
    | RewardRegistering(p: Name)
    | Deactivating(p: Name)
    | AddingVotes(k: Name, amount: int)
    | SubtractingVotes(k: Name, amount: int, now: int)
    | Voting(k: Name, list: seq<Name>)
    | Refunding(owner: Name, now: int)
    | Claiming(k: Name)
    | Transferring(from: Name, to: Name, amount: int)
    | Issuing(to: Name, amount: int)
    | Retiring(amount: int)
    | Opening(owner: Name)
    | Closing(owner: Name)
    | Configuring(activation: int, now: int)

  ghost function Execute(w: World, t: Transaction): Result<World, Error> {
    match t
    case Registering(p) => Ok(RegProducer(w, p))
    case RewardRegistering(p) => Ok(w.(rewards := Rewards.RegProducer(w.rewards, p)))
    case Deactivating(p) => FromSystem(w, Votes.Deactivate(w.votes, p))
    case AddingVotes(k, amount) => AddVote(w, k, amount)
    case SubtractingVotes(k, amount, now) => SubVote(w, k, amount, now)
    case Voting(k, list) => VoteProducer(w, k, list)
    case Refunding(owner, now) => VoteRefund(w, owner, now)
    case Claiming(k) => Claim(w, k)
    case Transferring(from, to, amount) => Pay(w, from, to, amount)
    case Issuing(to, amount) => FromToken(w, Token.Issue(w.ledger, to, amount))
    case Retiring(amount) => FromToken(w, Token.Retire(w.ledger, amount))
    case Opening(owner) => FromToken(w, Token.Open(w.ledger, owner))
    case Closing(owner) => FromToken(w, Token.Close(w.ledger, owner))
    case Configuring(activation, now) => FromSystem(w, Votes.Configure(w.votes, activation, now))
  }

  function FromSystem(w: World, r: Result<Votes.State, Votes.Error>): Result<World, Error> {
    match r case Ok(votes) => Ok(w.(votes := votes)) case Err(e) => Err(SystemRejected(e))
  }

  function FromToken(w: World, r: Result<Token.Ledger, Token.Error>): Result<World, Error> {
    match r case Ok(ledger) => Ok(w.(ledger := ledger)) case Err(e) => Err(TransferRejected(e))
  }

  // Transactions are signed by existing accounts; the two accounts that hold users' funds act only
  // through the actions above and never sign.
  ghost predicate SignedByUser(w: World, t: Transaction) {
    match t
    case AddingVotes(k, _) => User(k) && k in w.ledger.accounts
    case SubtractingVotes(k, _, _) => User(k) && k in w.ledger.accounts
    case Voting(k, _) => User(k) && k in w.ledger.accounts
    case Transferring(from, _, _) => User(from)
    case _ => true
  }

  predicate User(a: Name) {
    a != VOTE_ACCOUNT && a != REWARD_ACCOUNT
  }

  // ---- invariants ----

  function SystemVoter(w: World, k: Name): Votes.Voter {
    if k in w.votes.voters then w.votes.voters[k] else Votes.Voter(0, [])
  }

  function Total(producers: map<Name, Votes.Producer>, p: Name): int {
    if p in producers then producers[p].totalVotes else 0
  }

  ghost predicate VoterCoupled(w: World, k: Name) {
    && (k in w.votes.voters <==> k in w.rewards.voters)
    && (k in w.votes.voters ==>
          var v := w.votes.voters[k];
          && User(k) && k in w.ledger.accounts
          && v.votes == w.rewards.voters[k].votes
          && StrictlySorted(v.producers)
          && Elements(v.producers) == w.rewards.voters[k].producers.Keys <= w.votes.producers.Keys)
  }

  /** Voters' votes, voters' producers and producers' totals agree in both contracts. */
  ghost predicate Coupled(w: World) {
    && (forall k :: VoterCoupled(w, k))
    && (forall p :: Total(w.votes.producers, p) == Rewards.ProducerRow(w.rewards.producers, p).votes)
    && w.votes.totalStake == Sum(Invariant.AllVotes(w.rewards.voters))
  }

  ghost function Staked(refunds: map<Name, Votes.Refund>): map<Name, int> {
    map k | k in refunds :: refunds[k].staked
  }

  ghost function Claimed(voters: map<Name, Rewards.Voter>): map<Name, int> {
    map k | k in voters :: voters[k].claimed
  }

  // What flon.vote must be able to pay out: all stakes plus all pending refunds.
  ghost function VoteLiabilities(w: World): int {
    w.votes.totalStake + Sum(Staked(w.votes.refunds))
  }

  // What flon.reward still holds for others: every deposit minus every claim.
  ghost function RewardLiabilities(w: World): int {
    w.rewards.totalRewards - Sum(Claimed(w.rewards.voters))
  }

  // Spare tokens of the two custody accounts.
  ghost function VoteSlack(w: World): int {
    Token.Balance(w.ledger, VOTE_ACCOUNT) - VoteLiabilities(w)
  }

  ghost function RewardSlack(w: World): int {
    Token.Balance(w.ledger, REWARD_ACCOUNT) - RewardLiabilities(w)
  }

  ghost predicate Custody(w: World) {
    && {VOTE_ACCOUNT, REWARD_ACCOUNT} <= w.ledger.accounts && User(w.ledger.issuer)
    && (forall k :: k in w.votes.refunds ==> w.votes.refunds[k].staked > 0 && k in w.votes.voters)
    && VoteSlack(w) >= 0 && RewardSlack(w) >= 0
  }

  ghost predicate WorldOk(w: World) {
    Invariant.Solvent(w.rewards) && Token.LedgerOk(w.ledger) && Coupled(w) && Custody(w)
  }
}
