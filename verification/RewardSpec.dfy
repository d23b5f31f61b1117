/**
 * What each flon.reward action does to the contract's tables, stated row by row and without
 * loops: settling a voter against a producer, and the six actions built from settlements.
 */
module RewardSpec {
  import opened Common
  import opened Sums

  // Fixed-point scale of rewards_per_vote.
  const HIGH_PRECISION: int := 1_000_000_000_000_000_000

  datatype Producer = Producer(
    registered: bool,
    totalRewards: int,
    allocatingRewards: int,
    allocatedRewards: int,
    votes: int,
    rewardsPerVote: int)

  // producers maps each voted producer to the rewards_per_vote at the last settlement.
  datatype Voter = Voter(votes: int, producers: map<Name, int>, unclaimed: int, claimed: int)

  datatype State = State(totalRewards: int, producers: map<Name, Producer>, voters: map<Name, Voter>)

  datatype Error =
    | NegativeInput
    | RewardsPerVoteOverflow
    | RewardsOverflow
    | AssetOverflow
    | LastRewardsPerVoteInvalid
    | VotesExceedProducer
    | AllocatingInsufficient
    | ProducerBooksMismatch
    | ProducerVotesNegative
    | SettlementRejected
    | VotesNotPositive
    | VoterVotesInsufficient
    | VoterVotesNegative
    | ListNotSorted
    | VoterNotFound
    | NothingToClaim
    | ProducerNotFound
    | ProducerNotRegistered

  const NEW_PRODUCER: Producer := Producer(false, 0, 0, 0, 0, 0)
  const NEW_VOTER: Voter := Voter(0, map[], 0, 0)
  const EMPTY: State := State(0, map[], map[])

  function ProducerRow(producers: map<Name, Producer>, p: Name): Producer {
    if p in producers then producers[p] else NEW_PRODUCER
  }

  function VoterRow(voters: map<Name, Voter>, v: Name): Voter {
    if v in voters then voters[v] else NEW_VOTER
  }

  /** calc_rewards_per_vote. Every operand of the division is nonnegative, so `/` agrees with C++. */
  function RewardsPerVote(current: int, amount: int, votes: int): Result<int, Error> {
    if amount < 0 || votes < 0 then Err(NegativeInput)
    else if amount > 0 && votes > 0 then
      var updated := Int128(current + Int128(amount * HIGH_PRECISION) / votes);
      if updated >= current then Ok(updated) else Err(RewardsPerVoteOverflow)
    else Ok(current)
  }

  /** calc_voter_rewards; the 128-bit product is tested before it is divided. */
  function VoterRewards(votes: int, delta: int): (r: Result<int, Error>)
    ensures r.Ok? ==> 0 <= r.value <= MAX_ASSET
  {
    if votes < 0 || delta < 0 then Err(NegativeInput)
    else
      var product := Int128(votes * delta);
      if product < delta then Err(RewardsOverflow)
      else
        var rewards := product / HIGH_PRECISION;
        if rewards <= MAX_ASSET then Ok(rewards) else Err(RewardsOverflow)
  }

  datatype Settlement = Settlement(row: Producer, reward: int)

  function PayVoter(p: Producer, votesOld: int, delta: int): (r: Result<Settlement, Error>)
    ensures r.Ok? ==> r.value.reward >= 0 && r.value.row.rewardsPerVote == p.rewardsPerVote
  {
    if votesOld > p.votes then Err(VotesExceedProducer)
    else
      match VoterRewards(votesOld, delta)
      case Err(e) => Err(e)
      case Ok(reward) =>
        if p.allocatingRewards < reward then Err(AllocatingInsufficient)
        else if p.allocatedRewards + reward > MAX_ASSET then Err(AssetOverflow)
        else
          var row := p.(allocatingRewards := p.allocatingRewards - reward,
                        allocatedRewards := p.allocatedRewards + reward);
          if row.totalRewards == row.allocatingRewards + row.allocatedRewards
          then Ok(Settlement(row, reward))
          else Err(ProducerBooksMismatch)
  }

  /** One iteration of allocate_producer_rewards. */
  function SettleRow(p: Producer, votesOld: int, votesDelta: int, last: int): (r: Result<Settlement, Error>)
    ensures r.Ok? ==> r.value.reward >= 0 && r.value.row.rewardsPerVote == p.rewardsPerVote
  {
    if p.rewardsPerVote < last then Err(LastRewardsPerVoteInvalid)
    else
      var delta := Int128(p.rewardsPerVote - last);
      match if delta > 0 && votesOld > 0 then PayVoter(p, votesOld, delta) else Ok(Settlement(p, 0))
      case Err(e) => Err(e)
      case Ok(paid) =>
        var votes := Int64(paid.row.votes + votesDelta);
        if votes < 0 then Err(ProducerVotesNegative)
        else Ok(Settlement(paid.row.(votes := votes), paid.reward))
  }

  // The votes voter v contributes to producer p.
  function Stake(v: Voter, p: Name): int {
    if p in v.producers then v.votes else 0
  }

  // The rate at which voter v was last settled against producer p.
  function Checkpoint(v: Voter, p: Name): int {
    if p in v.producers then v.producers[p] else 0
  }

  // How p's votes change when voter v moves to the producers `keys` with `votes` votes.
  function VotesDelta(v: Voter, keys: set<Name>, votes: int, p: Name): int {
    (if p in keys then votes else 0) - Stake(v, p)
  }

  /** How producer p is settled when voter v moves to the producers `keys` with `votes` votes. */
  function Piece(s: State, v: Voter, keys: set<Name>, votes: int, p: Name): Result<Settlement, Error> {
    SettleRow(ProducerRow(s.producers, p), Stake(v, p), VotesDelta(v, keys, votes, p), Checkpoint(v, p))
  }

  predicate PiecesOk(s: State, v: Voter, keys: set<Name>, votes: int) {
    forall p <- v.producers.Keys + keys :: Piece(s, v, keys, votes, p).Ok?
  }

  function Rewards(s: State, v: Voter, keys: set<Name>, votes: int): (m: map<Name, int>)
    requires PiecesOk(s, v, keys, votes)
    ensures forall p <- m :: m[p] >= 0
  {
    map p | p in v.producers.Keys + keys :: Piece(s, v, keys, votes, p).value.reward
  }

  function PieceRows(s: State, v: Voter, keys: set<Name>, votes: int): map<Name, Producer>
    requires PiecesOk(s, v, keys, votes)
  {
    map p | p in v.producers.Keys + keys :: Piece(s, v, keys, votes, p).value.row
  }

  function Checkpoints(s: State, keys: set<Name>): map<Name, int> {
    map p | p in keys :: ProducerRow(s.producers, p).rewardsPerVote
  }

  /** Settle voter k everywhere, then let it support exactly `keys` with `votes` votes. */
  ghost function Resettle(s: State, k: Name, keys: set<Name>, votes: int): Result<State, Error> {
    var v := VoterRow(s.voters, k);
    if !PiecesOk(s, v, keys, votes) then Err(SettlementRejected)
    else
      var unclaimed := v.unclaimed + Sum(Rewards(s, v, keys, votes));
      if unclaimed > MAX_ASSET then Err(AssetOverflow)
      else
        Ok(s.(producers := s.producers + PieceRows(s, v, keys, votes),
              voters := s.voters[k := Voter(votes, Checkpoints(s, keys), unclaimed, v.claimed)]))
  }

  function RegProducer(s: State, p: Name): State {
    s.(producers := s.producers[p := ProducerRow(s.producers, p).(registered := true)])
  }

  ghost function ChangeVote(s: State, k: Name, votes: int, adding: bool): Result<State, Error> {
    var v := VoterRow(s.voters, k);
    if votes <= 0 then Err(VotesNotPositive)
    else if !adding && v.votes < votes then Err(VoterVotesInsufficient)
    else
      var updated := Int64(v.votes + if adding then votes else -votes);
      match Resettle(s, k, v.producers.Keys, v.votes + if adding then votes else -votes)
      case Err(e) => Err(e)
      case Ok(s') =>
        if updated < 0 then Err(VoterVotesNegative)
        else Ok(s'.(voters := s'.voters[k := s'.voters[k].(votes := updated)]))
  }

  ghost function VoteProducer(s: State, k: Name, producers: seq<Name>): Result<State, Error> {
    if !StrictlySorted(producers) then Err(ListNotSorted)
    else Resettle(s, k, Elements(producers), VoterRow(s.voters, k).votes)
  }

  ghost function Claim(s: State, k: Name): Result<(State, int), Error> {
    if k !in s.voters then Err(VoterNotFound)
    else
      var v := s.voters[k];
      match if v.votes > 0 then Resettle(s, k, v.producers.Keys, v.votes) else Ok(s)
      case Err(e) => Err(e)
      case Ok(s') =>
        var u := s'.voters[k];
        if u.unclaimed <= 0 then Err(NothingToClaim)
        else if u.claimed + u.unclaimed > MAX_ASSET then Err(AssetOverflow)
        else Ok((s'.(voters := s'.voters[k := u.(claimed := u.claimed + u.unclaimed, unclaimed := 0)]),
                 u.unclaimed))
  }

  /** The notification of a core-token transfer from `from` to the reward contract. */
  function Deposit(s: State, from: Name, amount: int): Result<State, Error> {
    if s.totalRewards + amount > MAX_ASSET then Err(AssetOverflow)
    else if from !in s.producers then Err(ProducerNotFound)
    else
      var p := s.producers[from];
      if !p.registered then Err(ProducerNotRegistered)
      else if p.totalRewards + amount > MAX_ASSET || p.allocatingRewards + amount > MAX_ASSET then Err(AssetOverflow)
      else
        match RewardsPerVote(p.rewardsPerVote, amount, p.votes)
        case Err(e) => Err(e)
        case Ok(rpv) =>
          Ok(s.(totalRewards := s.totalRewards + amount,
                producers := s.producers[from := p.(totalRewards := p.totalRewards + amount,
                                                    allocatingRewards := p.allocatingRewards + amount,
                                                    rewardsPerVote := rpv)]))
  }
}
