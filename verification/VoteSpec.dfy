/** The vote ledger of flon.system: stakes, per-producer totals and delayed refunds. */
module VoteSpec {
  import opened Common

  const MAX_VOTE_PRODUCER_COUNT := 30
  const MICROSECONDS: int := 1_000_000
  const REFUND_DELAY_SEC: int := 3 * 24 * 3600

  datatype Producer = Producer(totalVotes: int, active: bool)
  datatype Voter = Voter(votes: int, producers: seq<Name>)
  datatype Refund = Refund(staked: int, requestSec: int)

  // electionActivated is a time in microseconds, 0 while unset.
  datatype State = State(
    totalStake: int,
    electionActivated: int,
    producers: map<Name, Producer>,
    voters: map<Name, Voter>,
    refunds: map<Name, Refund>)

  datatype Error =
    | TooManyProducers
    | ListNotSorted
    | VoterNotFound
    | NegativeVotes
    | ProducersNoChange
    | ProducerUpdateRejected
    | ProducerNotFound
    | NotPositive
    | AssetOverflow
    | ElectionNotActivated
    | VotesInsufficient
    | TotalStakeInsufficient
    | RefundPending
    | NoRefund
    | RefundNotMature

  /** Whether adding `delta` to the total of every producer in `keys` passes update_producer_votes. */
  predicate CanUpdate(producers: map<Name, Producer>, keys: set<Name>, delta: int) {
    forall p <- keys ::
      && p in producers
      && (delta > 0 ==> producers[p].active)
      && Int64(producers[p].totalVotes + delta) >= 0
  }

  function Updated(producers: map<Name, Producer>, keys: set<Name>, delta: int): map<Name, Producer>
    requires keys <= producers.Keys
  {
    map p | p in producers ::
      if p in keys then producers[p].(totalVotes := Int64(producers[p].totalVotes + delta)) else producers[p]
  }

  // register_producer on the vote ledger; a returning producer keeps its votes.
  function Register(s: State, p: Name): State {
    s.(producers := s.producers[p := Producer(if p in s.producers then s.producers[p].totalVotes else 0, true)])
  }

  // unregprod and rmvproducer.
  function Deactivate(s: State, p: Name): Result<State, Error> {
    if p !in s.producers then Err(ProducerNotFound)
    else Ok(s.(producers := s.producers[p := s.producers[p].(active := false)]))
  }

  ghost function AddVote(s: State, k: Name, amount: int): Result<State, Error> {
    if amount <= 0 then Err(NotPositive)
    else if s.totalStake + amount > MAX_ASSET then Err(AssetOverflow)
    else
      var staked := s.(totalStake := s.totalStake + amount);
      if k !in s.voters then Ok(staked.(voters := s.voters[k := Voter(amount, [])]))
      else
        var v := s.voters[k];
        if !CanUpdate(s.producers, Elements(v.producers), amount) then Err(ProducerUpdateRejected)
        else Ok(staked.(producers := Updated(s.producers, Elements(v.producers), amount),
                        voters := s.voters[k := v.(votes := Int64(v.votes + amount))]))
  }

  ghost function SubVote(s: State, k: Name, amount: int, now: int): Result<State, Error> {
    if s.electionActivated == 0 || s.electionActivated > now then Err(ElectionNotActivated)
    else if amount <= 0 then Err(NotPositive)
    else if k !in s.voters then Err(VoterNotFound)
    else
      var v := s.voters[k];
      if v.votes < amount then Err(VotesInsufficient)
      else if s.totalStake < amount then Err(TotalStakeInsufficient)
      else if k in s.refunds then Err(RefundPending)
      else if !CanUpdate(s.producers, Elements(v.producers), -amount) then Err(ProducerUpdateRejected)
      else Ok(s.(totalStake := s.totalStake - amount,
                 producers := Updated(s.producers, Elements(v.producers), -amount),
                 voters := s.voters[k := v.(votes := v.votes - amount)],
                 refunds := s.refunds[k := Refund(amount, now / MICROSECONDS)]))
  }

  /**
   * voteproducer. The loop compares iterators of two different vectors, so it never recognises a
   * common name: every old producer loses the votes and every new one gains them.
   */
  ghost function VoteProducer(s: State, k: Name, list: seq<Name>): Result<State, Error> {
    if |list| > MAX_VOTE_PRODUCER_COUNT then Err(TooManyProducers)
    else if !StrictlySorted(list) then Err(ListNotSorted)
    else if k !in s.voters then Err(VoterNotFound)
    else
      var v := s.voters[k];
      if v.votes < 0 then Err(NegativeVotes)
      else if v.producers == list then Err(ProducersNoChange)
      else if !CanUpdate(s.producers, Elements(v.producers), -v.votes) then Err(ProducerUpdateRejected)
      else
        var without := Updated(s.producers, Elements(v.producers), -v.votes);
        if !CanUpdate(without, Elements(list), v.votes) then Err(ProducerUpdateRejected)
        else Ok(s.(producers := Updated(without, Elements(list), v.votes),
                   voters := s.voters[k := v.(producers := list)]))
  }

  /** The refund paid out and the ledger without it. */
  function VoteRefund(s: State, owner: Name, now: int): Result<(State, int), Error> {
    if owner !in s.refunds then Err(NoRefund)
    else
      var r := s.refunds[owner];
      if r.requestSec * MICROSECONDS + REFUND_DELAY_SEC * MICROSECONDS > now then Err(RefundNotMature)
      else Ok((s.(refunds := s.refunds - {owner}), r.staked))
  }

  // The part of cfgelection that concerns voting: the activation time is set once in the future.
  function Configure(s: State, activation: int, now: int): Result<State, Error> {
    if s.electionActivated == 0 || s.electionActivated > now then
      if activation > now then Ok(s.(electionActivated := activation)) else Err(ElectionNotActivated)
    else if activation == s.electionActivated then Ok(s) else Err(ElectionNotActivated)
  }
}
