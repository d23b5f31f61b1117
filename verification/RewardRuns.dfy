/**
 * Whole runs of flon.reward: solvency in every reachable state, and how close lazy settlement with
 * two levels of floor division comes to exact pro-rata shares.
 */
module RewardRuns {
  import opened Common
  import opened Sums
  import opened RewardSpec
  import opened RewardInvariant
  import opened RewardActions

  datatype Action =
    | Registering(p: Name)
    | Changing(k: Name, votes: int, adding: bool)
    | Voting(k: Name, list: seq<Name>)
    | Claiming(k: Name)
    | Depositing(from: Name, amount: int)

  // A rejected action leaves the tables as they were.
  ghost function Step(s: State, a: Action): State {
    match a
    case Registering(p) => RegProducer(s, p)
    case Changing(k, votes, adding) =>
      (match ChangeVote(s, k, votes, adding) case Ok(t) => t case Err(_) => s)
    case Voting(k, list) => (match VoteProducer(s, k, list) case Ok(t) => t case Err(_) => s)
    case Claiming(k) => (match Claim(s, k) case Ok(t) => t.0 case Err(_) => s)
    case Depositing(from, amount) => (match Deposit(s, from, amount) case Ok(t) => t case Err(_) => s)
  }

  // What the callers guarantee: the token contract moves nonnegative amounts, and the system
  // contract keeps the total stake within the range of an asset.
  ghost predicate Admissible(s: State, a: Action) {
    match a
    case Changing(k, votes, adding) => adding ==> Sum(AllVotes(s.voters)) + votes <= MAX_ASSET
    case Depositing(from, amount) => amount >= 0
    case _ => true
  }

  ghost function Run(acts: seq<Action>): State {
    if acts == [] then EMPTY else Step(Run(acts[..|acts| - 1]), acts[|acts| - 1])
  }

  ghost predicate AdmissibleRun(acts: seq<Action>) {
    acts != [] ==> AdmissibleRun(acts[..|acts| - 1]) && Admissible(Run(acts[..|acts| - 1]), acts[|acts| - 1])
  }

  lemma StepSolvent(s: State, a: Action)
    requires Solvent(s) && Admissible(s, a)
    ensures Solvent(Step(s, a))
  {
    hide Solvent;
    match a
    case Registering(p) => RegProducerSolvent(s, p);
    case Changing(k, votes, adding) => ChangeVoteSolvent(s, k, votes, adding);
    case Voting(k, list) => VoteProducerSolvent(s, k, list);
    case Claiming(k) => ClaimSolvent(s, k);
    case Depositing(from, amount) => DepositSolvent(s, from, amount);
  }

  /** Every reachable state is solvent. */
  lemma {:induction false} RunSolvent(acts: seq<Action>)
    requires AdmissibleRun(acts)
    ensures Solvent(Run(acts))
  {
    if acts == [] {
      EmptySolvent();
    } else {
      RunSolvent(acts[..|acts| - 1]);
      StepSolvent(Run(acts[..|acts| - 1]), acts[|acts| - 1]);
    }
  }

  // ---- one voter's account ----

  // Everything credited to voter v so far, claimed or not.
  ghost function Credited(s: State, v: Name): int {
    VoterRow(s.voters, v).unclaimed + VoterRow(s.voters, v).claimed
  }

  ghost function DebtMap(s: State, v: Name): map<Name, int> {
    var row := VoterRow(s.voters, v);
    map p | p in row.producers :: Debt(row, p, ProducerRow(s.producers, p).rewardsPerVote)
  }

  // The scaled rewards that settling v now would look at.
  ghost function Pending(s: State, v: Name): int {
    Sum(DebtMap(s, v))
  }

  // v's exact share of a deposit of `amount` among `total` votes.
  function Portion(weight: int, amount: int, total: int): real
    requires total > 0
  {
    (weight * amount) as real / total as real
  }

  // v's weight in an accepted deposit that is distributed at all.
  ghost function Weight(s: State, a: Action, v: Name): int {
    if a.Depositing? && Deposit(s, a.from, a.amount).Ok? && ProducerRow(s.producers, a.from).votes > 0
    then Stake(VoterRow(s.voters, v), a.from) else 0
  }

  ghost function FairGain(s: State, a: Action, v: Name): real {
    if Weight(s, a, v) != 0
    then Portion(Weight(s, a, v), a.amount, ProducerRow(s.producers, a.from).votes) else 0.0
  }

  // Producers against which the action settles v.
  ghost function Settlements(s: State, a: Action, v: Name): nat {
    var row := VoterRow(s.voters, v);
    match a
    case Changing(k, votes, adding) =>
      if k == v && ChangeVote(s, k, votes, adding).Ok? then |row.producers| else 0
    case Voting(k, list) => if k == v && VoteProducer(s, k, list).Ok? then |row.producers| else 0
    case Claiming(k) => if k == v && Claim(s, k).Ok? && row.votes > 0 then |row.producers| else 0
    case _ => 0
  }

  ghost function Fair(acts: seq<Action>, v: Name): real {
    if acts == [] then 0.0
    else Fair(acts[..|acts| - 1], v) + FairGain(Run(acts[..|acts| - 1]), acts[|acts| - 1], v)
  }

  ghost function WeightSum(acts: seq<Action>, v: Name): int {
    if acts == [] then 0
    else WeightSum(acts[..|acts| - 1], v) + Weight(Run(acts[..|acts| - 1]), acts[|acts| - 1], v)
  }

  ghost function SettlementCount(acts: seq<Action>, v: Name): nat {
    if acts == [] then 0
    else SettlementCount(acts[..|acts| - 1], v) + Settlements(Run(acts[..|acts| - 1]), acts[|acts| - 1], v)
  }

  // ---- what one step does to the account ----

  lemma {:induction false} FloorSums(debts: map<Name, int>, floors: map<Name, int>)
    requires debts.Keys == floors.Keys
    requires forall p :: p in debts ==> floors[p] == debts[p] / HIGH_PRECISION
    ensures HIGH_PRECISION * Sum(floors) <= Sum(debts) <= HIGH_PRECISION * (Sum(floors) + |debts|)
    decreases |debts|
  {
    if debts == map[] {
      assert floors == map[];
    } else {
      var p :| p in debts;
      SumRemove(debts, p);
      SumRemove(floors, p);
      FloorSums(debts - {p}, floors - {p});
      assert |debts - {p}| == |debts| - 1;
    }
  }

  // The scaled value of v's account: what it was credited plus what it is still owed.
  ghost function Value(s: State, v: Name): int {
    HIGH_PRECISION * Credited(s, v) + Pending(s, v)
  }

  /** Settling one voter never changes what another was credited or is owed. */
  lemma OthersUntouched(s: State, k: Name, keys: set<Name>, votes: int, v: Name)
    requires v != k
    ensures var t := AfterResettle(s, k, keys, votes);
            && VoterRow(t.voters, v) == VoterRow(s.voters, v)
            && DebtMap(t, v) == DebtMap(s, v)
            && Value(t, v) == Value(s, v)
  {
    hide Debt;
    RatesKept(s, k, keys, votes);
    var t := AfterResettle(s, k, keys, votes);
    assert VoterRow(t.voters, v) == VoterRow(s.voters, v);
    assert DebtMap(t, v) == DebtMap(s, v);
  }

  /** Settling v turns its pending debts into credit, losing less than one unit per producer. */
  lemma SettleAccount(s: State, k: Name, keys: set<Name>, votes: int)
    ensures var t := AfterResettle(s, k, keys, votes);
            && Pending(t, k) == 0
            && Value(t, k) <= Value(s, k) <= Value(t, k) + HIGH_PRECISION * |VoterRow(s.voters, k).producers|
  {
    hide Debt;
    hide Pending;
    SettledPending(s, k, keys, votes);
    SettledCredit(s, k, keys);
  }

  lemma RatesKept(s: State, k: Name, keys: set<Name>, votes: int)
    ensures var t := AfterResettle(s, k, keys, votes);
            forall p :: ProducerRow(t.producers, p).rewardsPerVote == ProducerRow(s.producers, p).rewardsPerVote
  {
    forall p
      ensures ProducerRow(AfterResettle(s, k, keys, votes).producers, p).rewardsPerVote
           == ProducerRow(s.producers, p).rewardsPerVote
    {
      SettledRow(s, k, keys, votes, p);
    }
  }

  lemma SettledPending(s: State, k: Name, keys: set<Name>, votes: int)
    ensures Pending(AfterResettle(s, k, keys, votes), k) == 0
  {
    var t := AfterResettle(s, k, keys, votes);
    RatesKept(s, k, keys, votes);
    forall p | p in DebtMap(t, k) ensures DebtMap(t, k)[p] == 0 {
      FreshCheckpoint(t.voters[k], p, ProducerRow(t.producers, p).rewardsPerVote);
    }
    SumZero(DebtMap(t, k));
  }

  lemma SettledCredit(s: State, k: Name, keys: set<Name>)
    ensures var v := VoterRow(s.voters, k);
            var gain := Sum(Shares(s, v, keys));
            HIGH_PRECISION * gain <= Pending(s, k) <= HIGH_PRECISION * (gain + |v.producers|)
  {
    hide Debt;
    var v := VoterRow(s.voters, k);
    var debts, shares := DebtMap(s, k), Shares(s, v, keys);
    forall p | p in shares && p !in v.producers ensures shares[p] == 0 {
      NoDebt(v, p, ProducerRow(s.producers, p).rewardsPerVote);
    }
    SumSupport(shares, v.producers.Keys);
    FloorSums(debts, map p | p in v.producers.Keys :: shares[p]);
    assert |debts| == |debts.Keys| && |v.producers| == |v.producers.Keys|;
    assert debts.Keys == v.producers.Keys;
  }

  lemma NoDebt(v: Voter, p: Name, rpv: int)
    requires p !in v.producers
    ensures Debt(v, p, rpv) == 0
  {}

  lemma PortionBounds(weight: int, amount: int, total: int)
    requires weight >= 0 && amount >= 0 && total > 0
    ensures (weight * Rise(amount, total)) as real <= HIGH_PRECISION as real * Portion(weight, amount, total)
    ensures HIGH_PRECISION as real * Portion(weight, amount, total) <= (weight * Rise(amount, total) + weight) as real
  {
    var rise := Rise(amount, total);
    RiseBounds(amount, total);
    ScaleByWeight(weight, rise * total, amount * HIGH_PRECISION, (rise + 1) * total);
    assert weight * (rise * total) == (weight * rise) * total;
    assert weight * ((rise + 1) * total) == (weight * rise + weight) * total;
    assert weight * (amount * HIGH_PRECISION) == HIGH_PRECISION * (weight * amount);
    DivideBounds(weight * rise, weight * amount, weight * rise + weight, total);
  }

  lemma ScaleByWeight(w: int, a: int, b: int, c: int)
    requires w >= 0 && a <= b <= c
    ensures w * a <= w * b <= w * c
  {}

  lemma DivideBounds(low: int, x: int, high: int, total: int)
    requires total > 0 && low * total <= HIGH_PRECISION * x <= high * total
    ensures low as real <= HIGH_PRECISION as real * (x as real / total as real) <= high as real
  {
    var q := x as real / total as real;
    var d := total as real;
    assert q * d == x as real;
    assert (low * total) as real == low as real * d;
    assert (high * total) as real == high as real * d;
    assert (HIGH_PRECISION * x) as real == HIGH_PRECISION as real * x as real;
    DivideReal(low as real, HIGH_PRECISION as real * q, high as real, d);
  }

  lemma DivideReal(low: real, x: real, high: real, d: real)
    requires d > 0.0 && low * d <= x * d <= high * d
    ensures low <= x <= high
  {}

  // A deposit raises what v is owed by its stake times the rise of the producer's rate.
  lemma DepositAccount(s: State, from: Name, amount: int, v: Name)
    requires from in s.producers && amount >= 0 && s.producers[from].votes >= 0
    ensures var t := AfterDeposit(s, from, amount);
            Value(t, v) == Value(s, v) + Stake(VoterRow(s.voters, v), from) * Rise(amount, s.producers[from].votes)
  {
    var t := AfterDeposit(s, from, amount);
    var row := VoterRow(s.voters, v);
    var rise := Rise(amount, s.producers[from].votes);
    var rpv := s.producers[from].rewardsPerVote;
    if from in row.producers {
      assert rpv + rise - row.producers[from] == rpv - row.producers[from] + rise;
      Distribute(row.votes, rpv - row.producers[from], rise);
      assert Debt(row, from, rpv + rise) == Debt(row, from, rpv) + row.votes * rise;
      assert DebtMap(t, v) == DebtMap(s, v)[from := Debt(row, from, rpv + rise)];
      SumUpdate(DebtMap(s, v), from, Debt(row, from, rpv + rise));
    } else {
      assert DebtMap(t, v) == DebtMap(s, v);
    }
  }

  lemma ClaimAccount(s: State, k: Name, v: Name)
    requires Solvent(s) && Claim(s, k).Ok?
    ensures var t := Claim(s, k).value.0;
            Value(t, v) <= Value(s, v) <= Value(t, v) + HIGH_PRECISION * Settlements(s, Claiming(k), v)
  {
    hide Debt;
    hide Solvent;
    hide Claim;
    ClaimSolvent(s, k);
    assert k in s.voters && (s.voters[k].votes < 0 || s.voters[k].votes >= 0);
    var mid := BeforePayout(s, k);
    var row := s.voters[k];
    if row.votes > 0 {
      if v == k {
        SettleAccount(s, k, row.producers.Keys, row.votes);
      } else {
        OthersUntouched(s, k, row.producers.Keys, row.votes, v);
      }
    }
    PaidAccount(mid, k, v);
  }

  lemma PaidAccount(s: State, k: Name, v: Name)
    requires k in s.voters
    ensures Value(s.(voters := s.voters[k := Paid(s.voters[k])]), v) == Value(s, v)
  {
    var t := s.(voters := s.voters[k := Paid(s.voters[k])]);
    forall p | p in DebtMap(s, v) ensures DebtMap(t, v)[p] == DebtMap(s, v)[p] {}
    assert DebtMap(t, v) == DebtMap(s, v);
  }

  lemma ResettleAccount(s: State, k: Name, keys: set<Name>, votes: int, v: Name)
    ensures var t := AfterResettle(s, k, keys, votes);
            Value(t, v) <= Value(s, v)
              <= Value(t, v) + if v == k then HIGH_PRECISION * |VoterRow(s.voters, v).producers| else 0
  {
    if v == k {
      SettleAccount(s, k, keys, votes);
    } else {
      OthersUntouched(s, k, keys, votes, v);
    }
  }

  /** One action: the account follows the exact share up to one unit per settlement and the rate's rounding. */
  lemma StepAccount(s: State, a: Action, v: Name)
    requires Solvent(s) && Admissible(s, a)
    ensures var t := Step(s, a);
            var gain := HIGH_PRECISION as real * FairGain(s, a, v);
            && Value(t, v) as real <= Value(s, v) as real + gain
            && Value(s, v) as real + gain
                 <= (Value(t, v) + HIGH_PRECISION * Settlements(s, a, v) + Weight(s, a, v)) as real
    ensures Weight(s, a, v) >= 0
  {
    hide Solvent;
    hide Value;
    match a
    case Registering(p) => RegisterAccount(s, p, v);
    case Changing(k, votes, adding) =>
      ChangeVoteSolvent(s, k, votes, adding);
      var row := VoterRow(s.voters, k);
      ResettleAccount(s, k, row.producers.Keys, row.votes + Signed(votes, adding), v);
    case Voting(k, list) =>
      VoteProducerSolvent(s, k, list);
      ResettleAccount(s, k, Elements(list), VoterRow(s.voters, k).votes, v);
    case Claiming(k) =>
      if Claim(s, k).Ok? {
        ClaimAccount(s, k, v);
      }
    case Depositing(from, amount) => DepositStep(s, from, amount, v);
  }

  lemma RegisterAccount(s: State, p: Name, v: Name)
    ensures Value(RegProducer(s, p), v) == Value(s, v)
  {
    var t := RegProducer(s, p);
    forall q | q in DebtMap(s, v)
      ensures ProducerRow(t.producers, q).rewardsPerVote == ProducerRow(s.producers, q).rewardsPerVote {}
    assert DebtMap(t, v) == DebtMap(s, v);
  }

  lemma DepositStep(s: State, from: Name, amount: int, v: Name)
    requires Solvent(s) && amount >= 0
    ensures var a := Depositing(from, amount);
            var t := Step(s, a);
            var gain := HIGH_PRECISION as real * FairGain(s, a, v);
            && Weight(s, a, v) >= 0
            && Value(t, v) as real <= Value(s, v) as real + gain
            && Value(s, v) as real + gain <= (Value(t, v) + Weight(s, a, v)) as real
  {
    hide Solvent;
    hide Value;
    hide Deposit;
    DepositExact(s, from, amount);
    VoterShare(s, v, from);
    if Deposit(s, from, amount).Ok? {
      DepositAccount(s, from, amount, v);
      var total := s.producers[from].votes;
      var w := Stake(VoterRow(s.voters, v), from);
      if total > 0 {
        PortionBounds(w, amount, total);
      }
    }
  }

  /**
   * Pro-rata payout over whole runs. At every moment the scaled value of a voter's account is at most
   * the exact share of all deposits made while it had weight, and falls short of it by less than one
   * unit per settlement plus the sum of those weights (divided by the scale).
   */
  lemma {:induction false} AccountTracksFairShare(acts: seq<Action>, v: Name)
    requires AdmissibleRun(acts)
    ensures var s := Run(acts);
            && WeightSum(acts, v) >= 0
            && Value(s, v) as real <= HIGH_PRECISION as real * Fair(acts, v)
            && HIGH_PRECISION as real * Fair(acts, v)
                 <= (Value(s, v) + HIGH_PRECISION * SettlementCount(acts, v) + WeightSum(acts, v)) as real
  {
    hide Value;
    if acts == [] {
      EmptyAccount(v);
    } else {
      var before := acts[..|acts| - 1];
      AccountTracksFairShare(before, v);
      RunSolvent(before);
      StepAccount(Run(before), acts[|acts| - 1], v);
    }
  }

  lemma EmptyAccount(v: Name)
    ensures Value(EMPTY, v) == 0
  {
    assert DebtMap(EMPTY, v) == map[];
  }

  /** A voter that has just been settled has been paid its exact share up to the stated rounding. */
  lemma SettledVoterIsPaidProRata(acts: seq<Action>, v: Name)
    requires AdmissibleRun(acts) && Pending(Run(acts), v) == 0
    ensures Credited(Run(acts), v) as real <= Fair(acts, v)
    ensures Fair(acts, v) - SettlementCount(acts, v) as real - WeightSum(acts, v) as real / HIGH_PRECISION as real
              <= Credited(Run(acts), v) as real
  {
    AccountTracksFairShare(acts, v);
  }

  /** A voter's weight and producers change only in an action that settles it completely. */
  lemma WeightChangesOnlyWhenSettled(s: State, a: Action, v: Name)
    requires Solvent(s) && Admissible(s, a)
    requires var row, row' := VoterRow(s.voters, v), VoterRow(Step(s, a).voters, v);
             row'.votes != row.votes || row'.producers != row.producers
    ensures Pending(Step(s, a), v) == 0
  {
    hide Debt;
    hide Deposit;
    hide Claim;
    hide VoteProducer;
    hide ChangeVote;
    hide Solvent;
    hide Pending;
    match a
    case Registering(p) =>
    case Changing(k, votes, adding) =>
      ChangeVoteSolvent(s, k, votes, adding);
      var row := VoterRow(s.voters, k);
      SettledPending(s, k, row.producers.Keys, row.votes + Signed(votes, adding));
    case Voting(k, list) =>
      VoteProducerSolvent(s, k, list);
      SettledPending(s, k, Elements(list), VoterRow(s.voters, k).votes);
    case Claiming(k) =>
      ClaimSolvent(s, k);
      ClaimPending(s, k);
    case Depositing(from, amount) => DepositExact(s, from, amount);
  }

  lemma ClaimPending(s: State, k: Name)
    requires k in s.voters
    ensures k in BeforePayout(s, k).voters
    ensures s.voters[k].votes > 0 ==> Pending(AfterClaim(s, k), k) == 0
  {
    var mid := BeforePayout(s, k);
    if s.voters[k].votes > 0 {
      SettledPending(s, k, s.voters[k].producers.Keys, s.voters[k].votes);
      assert DebtMap(AfterClaim(s, k), k) == DebtMap(mid, k);
    }
  }
}
