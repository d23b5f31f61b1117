/** onblock as one action: the block record, the reward, the election and the auction. */
module OnBlock {
  import opened Common
  import opened EmissionSpec
  import opened FinalizerInvariant
  import opened Powers
  import opened Election
  import AuctionProofs
  import AuctionSpec
  import BlockInfo
  import ElectionSpec
  import FinalizerSpec
  import Token
  import VoteSpec

  datatype Node = Node(
    blocks: BlockInfo.Table,
    rewards: EmissionSpec.State,
    auctions: AuctionSpec.State,
    producers: map<Name, VoteSpec.Producer>,
    fin: FinalizerSpec.State,
    scheduleSize: nat)

  // One call: the block, the current time, the vote index and the host's answer to a schedule.
  datatype Call = Call(height: nat, slot: Slot, producer: Name, now: int, idx: seq<Name>, accepted: bool)

  datatype Error =
    | HeightRecorded
    | RewardAborted(reward: EmissionSpec.Error)
    | CloseRejected(auction: AuctionSpec.Error)

  predicate Activated(s: Node, slot: Slot) {
    s.rewards.activated != 0 && s.rewards.activated <= Time(slot)
  }

  // The tables of the election, at most once a minute.
  function Elected(s: Node, c: Call): Node {
    if AuctionSpec.ScheduleDue(s.auctions, c.slot)
    then s.(fin := Elect(s.producers, s.fin, s.scheduleSize, c.idx),
            scheduleSize := ElectedSize(s.producers, s.fin, s.scheduleSize, c.idx, c.accepted))
    else s
  }

  // Before elections are activated only the block is recorded.
  ghost function Apply(s: Node, c: Call): Result<Node, Error>
    requires s.rewards.initial >= 0
  {
    match BlockInfo.Add(s.blocks, c.height, Time(c.slot))
    case None => Err(HeightRecorded)
    case Some(blocks) =>
      if !Activated(s, c.slot) then Ok(s.(blocks := blocks))
      else
        match PayBlock(s.rewards, c.slot, c.producer)
        case Err(e) => Err(RewardAborted(e))
        case Ok(rewards) =>
          match AuctionSpec.OnBlock(s.auctions, c.slot, c.now)
          case Err(e) => Err(CloseRejected(e))
          case Ok(auctions) => Ok(Elected(s, c).(blocks := blocks, rewards := rewards, auctions := auctions))
  }

  // A failed onblock leaves no trace; the block is produced all the same.
  ghost function Next(s: Node, c: Call): Node
    requires s.rewards.initial >= 0
  {
    match Apply(s, c) case Ok(t) => t case Err(_) => s
  }

  // What the histories of each part guarantee.
  ghost predicate NodeOk(s: Node) {
    && BlockInfo.TableOk(s.blocks)
    && 0 <= s.rewards.initial <= INT64_MAX && s.rewards.started >= 0
    && AuctionSpec.AuctionOk(s.auctions)
    && ElectionSpec.InRange(s.producers) && FinOk(s.fin) && s.scheduleSize <= ElectionSpec.SCHEDULE_LIMIT
  }

  ghost predicate MayAdd(before: seq<FinalizerSpec.Policy>, after: seq<FinalizerSpec.Policy>) {
    after == before || exists p :: PolicyLegal(p) && after == before + [p]
  }

  /**
   * onblock fails exactly when the height is recorded already: neither the reward, nor the election, nor
   * the auction can fail. It proposes legal policies only.
   */
  lemma FailsExactly(s: Node, c: Call)
    requires NodeOk(s) && ElectionSpec.IsIndex(s.producers, c.idx)
    ensures Apply(s, c).Err? <==> BlockInfo.Has(s.blocks, c.height)
    ensures MayAdd(s.fin.policies, Next(s, c).fin.policies)
    ensures s.scheduleSize <= Next(s, c).scheduleSize
    ensures BlockInfo.Later(s.blocks, c.height) ==> Apply(s, c).Ok? && NodeOk(Next(s, c))
  {
    hide PayBlock, Rewarding, Period, Halved, Time, Activated, AuctionSpec.OnBlock, AuctionSpec.AuctionOk,
      AuctionSpec.ScheduleDue, AuctionProofs.Closes, FinOk, Elect, ElectedSize, ElectionSpec.IsIndex, BlockInfo.TableOk,
      PolicyLegal;
    PayBlockExact(s.rewards, c.slot, c.producer);
    AuctionProofs.BlockKeeps(s.auctions, c.slot, c.now);
    ElectOk(s.producers, s.fin, s.scheduleSize, c.idx, c.accepted);
    if BlockInfo.Later(s.blocks, c.height) {
      BlockInfo.AddKeeps(s.blocks, c.height, Time(c.slot));
    }
  }

  // ---- what it leaves ----

  // The reward of the block, in the fields' own terms.
  ghost predicate RewardLeft(s: EmissionSpec.State, t: EmissionSpec.State, slot: Slot, producer: Name)
    requires s.initial >= 0
  {
    if producer in s.producers && s.started != 0 && s.started <= Time(slot) then
      var reward := s.initial / Pow(2, (Time(slot) - s.started) / 1_000_000 / 157_680_000);
      t == s.(produced := Int64(s.produced + reward), unclaimed := Int64(s.unclaimed + reward),
              producers := s.producers[producer := Int64(s.producers[producer] + reward)])
    else t == s
  }

  // The tables an election reads and writes.
  datatype Tables = Tables(producers: map<Name, VoteSpec.Producer>, fin: FinalizerSpec.State, scheduleSize: nat)

  // The election: whatever selection is the top, it is proposed unless it is empty or smaller than before.
  ghost predicate ElectionLeft(s: Tables, t: Tables, accepted: bool) {
    && t.producers == s.producers
    && forall top :: ElectionSpec.IsTop(s.producers, s.fin.finalizers, s.fin.lastProposed != [], 21, top) ==>
         if top == [] || |top| < s.scheduleSize then t == s
         else
           && t.scheduleSize == (if accepted then |top| else s.scheduleSize)
           && if s.fin.lastProposed == [] then t.fin == s.fin
              else PolicyLeft(s.fin, t.fin, Auths(s.fin.finalizers, top))
  }

  // The host receives the policy unless its ids and keys are those of the last one.
  ghost predicate PolicyLeft(s: FinalizerSpec.State, t: FinalizerSpec.State, proposed: seq<FinalizerSpec.Auth>) {
    if IdsAndKeys(proposed) == IdsAndKeys(s.lastProposed) then t == s else Received(s, t, proposed)
  }

  // The auction that is closed now: the largest open bid, a day old, a day after the last closing.
  ghost predicate ClosesNow(s: AuctionSpec.State, n: Name, slot: Slot, now: int) {
    && AuctionSpec.IsHighest(s.bids, n) && now - s.bids[n].lastBidTime > 86_400_000_000
    && (slot - s.lastClose) % TWO32 > 172_800
  }

  ghost predicate AuctionLeft(s: AuctionSpec.State, t: AuctionSpec.State, slot: Slot, now: int) {
    && t.lastSchedule == slot && t.refunds == s.refunds
    && (forall n :: ClosesNow(s, n, slot, now) ==>
          && t.bids == s.bids[n := s.bids[n].(highBid := -s.bids[n].highBid)] && t.lastClose == slot
          && Token.Balance(t.ledger, FEES) == Token.Balance(s.ledger, FEES) + s.bids[n].highBid)
    && ((forall n :: !ClosesNow(s, n, slot, now)) ==> t == s.(lastSchedule := slot))
  }

  function TablesOf(s: Node): Tables {
    Tables(s.producers, s.fin, s.scheduleSize)
  }

  /**
   * What a successful onblock leaves. Before activation only the block record changes. Afterwards the
   * reward is credited; and more than 120 slots after the last time, the election and the auction run.
   */
  lemma BlockLeaves(s: Node, c: Call)
    requires NodeOk(s) && ElectionSpec.IsIndex(s.producers, c.idx) && !BlockInfo.Has(s.blocks, c.height)
    ensures var t := Next(s, c);
            && BlockInfo.Add(s.blocks, c.height, Time(c.slot)) == Some(t.blocks) && t.producers == s.producers
            && if s.rewards.activated == 0 || Time(c.slot) < s.rewards.activated then t == s.(blocks := t.blocks)
               else
                 && RewardLeft(s.rewards, t.rewards, c.slot, c.producer)
                 && if (c.slot - s.auctions.lastSchedule) % TWO32 > 120
                    then ElectionLeft(TablesOf(s), TablesOf(t), c.accepted)
                      && AuctionLeft(s.auctions, t.auctions, c.slot, c.now)
                    else t.fin == s.fin && t.scheduleSize == s.scheduleSize && t.auctions == s.auctions
  {
    hide PayBlock, AuctionSpec.OnBlock, BlockInfo.Has, NodeOk, Elect, ElectedSize, ElectionSpec.IsIndex, RewardLeft,
      ElectionLeft, AuctionLeft, Time;
    NodeParts(s);
    FailsExactly(s, c);
    if Activated(s, c.slot) {
      RewardLeaves(s.rewards, c.slot, c.producer);
      AuctionLeaves(s.auctions, c.slot, c.now);
      if AuctionSpec.ScheduleDue(s.auctions, c.slot) {
        ElectionLeaves(s, c);
      }
    }
  }

  lemma NodeParts(s: Node)
    requires NodeOk(s)
    ensures 0 <= s.rewards.initial <= INT64_MAX && s.rewards.started >= 0 && AuctionSpec.AuctionOk(s.auctions)
    ensures ElectionSpec.InRange(s.producers) && FinOk(s.fin)
  {}

  lemma RewardLeaves(s: EmissionSpec.State, slot: Slot, producer: Name)
    requires 0 <= s.initial <= INT64_MAX && s.started >= 0 && s.activated != 0 && s.activated <= Time(slot)
    ensures PayBlock(s, slot, producer).Ok? && RewardLeft(s, PayBlock(s, slot, producer).value, slot, producer)
  {
    hide PayBlock;
    PayBlockExact(s, slot, producer);
  }

  lemma AuctionLeaves(s: AuctionSpec.State, slot: Slot, now: int)
    requires AuctionSpec.AuctionOk(s)
    ensures AuctionSpec.OnBlock(s, slot, now).Ok?
    ensures var t := AuctionSpec.OnBlock(s, slot, now).value;
            if AuctionSpec.ScheduleDue(s, slot) then AuctionLeft(s, t, slot, now) else t == s
  {
    hide AuctionSpec.OnBlock, AuctionSpec.AuctionOk, AuctionSpec.IsHighest, AuctionSpec.ScheduleDue, Token.Balance,
      AuctionProofs.Closes, ClosesNow;
    AuctionProofs.BlockKeeps(s, slot, now);
    forall n
      ensures AuctionProofs.Closes(s, n, slot, now) <==> AuctionSpec.ScheduleDue(s, slot) && ClosesNow(s, n, slot, now)
    {
      ClosesWhenDue(s, n, slot, now);
    }
  }

  lemma ClosesWhenDue(s: AuctionSpec.State, n: Name, slot: Slot, now: int)
    ensures AuctionProofs.Closes(s, n, slot, now) <==> AuctionSpec.ScheduleDue(s, slot) && ClosesNow(s, n, slot, now)
  {
    hide AuctionSpec.IsHighest, AuctionSpec.ScheduleDue;
  }

  lemma ElectionLeaves(s: Node, c: Call)
    requires ElectionSpec.InRange(s.producers) && FinOk(s.fin) && ElectionSpec.IsIndex(s.producers, c.idx)
    requires AuctionSpec.ScheduleDue(s.auctions, c.slot)
    ensures ElectionLeft(TablesOf(s), TablesOf(Elected(s, c)), c.accepted)
  {
    hide FinOk, ElectionSpec.IsIndex, ElectionSpec.IsTop, TopOf, FinalizerSpec.SetProposed, Received, IdsAndKeys;
    var needKey := s.fin.lastProposed != [];
    TopOfIsTop(s.producers, s.fin.finalizers, c.idx, 21, needKey);
    var chosen := TopOf(s.producers, s.fin.finalizers, c.idx, 21, needKey);
    forall top | ElectionSpec.IsTop(s.producers, s.fin.finalizers, needKey, 21, top) ensures top == chosen {
      ElectionSpec.TopUnique(s.producers, s.fin.finalizers, needKey, 21, top, chosen);
    }
    if needKey {
      ProposalLegal(s.fin, s.producers, 21, chosen);
      TablesOfFin(s.fin);
      SetProposedExact(s.fin, Auths(s.fin.finalizers, chosen));
    }
  }

  // ---- histories ----

  // Between blocks other actions may do to the tables whatever their own results allow.
  datatype Action = Block(c: Call) | Between(t: Node)

  ghost function At(start: Node, steps: seq<Action>, n: nat): Node
    requires n <= |steps|
  {
    if n == 0 then start
    else
      var s := At(start, steps, n - 1);
      match steps[n - 1]
      case Block(c) => if s.rewards.initial >= 0 then Next(s, c) else s
      case Between(t) => t
  }

  ghost predicate Lawful(s: Node, a: Action) {
    match a
    case Block(c) => ElectionSpec.IsIndex(s.producers, c.idx)
    case Between(t) => NodeOk(t) && t.blocks == s.blocks
  }

  ghost predicate LawfulRun(start: Node, steps: seq<Action>) {
    NodeOk(start) && forall i :: 0 <= i < |steps| ==> Lawful(At(start, steps, i), steps[i])
  }

  // Heights only grow.
  ghost predicate Growing(start: Node, steps: seq<Action>) {
    && (forall i :: 0 <= i < |steps| && steps[i].Block? ==> BlockInfo.Later(start.blocks, steps[i].c.height))
    && forall i, j :: 0 <= i < j < |steps| && steps[i].Block? && steps[j].Block? ==>
         steps[i].c.height < steps[j].c.height
  }

  lemma {:induction false} RecordsBehind(start: Node, steps: seq<Action>, n: nat, i: nat)
    requires LawfulRun(start, steps) && Growing(start, steps) && n <= i < |steps| && steps[i].Block?
    ensures NodeOk(At(start, steps, n)) && BlockInfo.Later(At(start, steps, n).blocks, steps[i].c.height)
  {
    hide NodeOk, Next, LawfulRun, Growing, BlockInfo.Later, ElectionSpec.IsIndex;
    if n == 0 {
      StartFacts(start, steps, i, i);
    } else {
      var s, a := At(start, steps, n - 1), steps[n - 1];
      RecordsBehind(start, steps, n - 1, i);
      StartFacts(start, steps, n - 1, i);
      RewardNonNegative(s);
      if a.Block? {
        RecordsBehind(start, steps, n - 1, n - 1);
        RecordStep(s, a.c, steps[i].c.height);
      }
    }
  }

  lemma StartFacts(start: Node, steps: seq<Action>, m: nat, i: nat)
    requires LawfulRun(start, steps) && Growing(start, steps) && m <= i < |steps| && steps[i].Block?
    ensures NodeOk(start) && BlockInfo.Later(start.blocks, steps[i].c.height) && Lawful(At(start, steps, m), steps[m])
    ensures m < i && steps[m].Block? ==> steps[m].c.height < steps[i].c.height
  {
    hide NodeOk, BlockInfo.Later, At, Lawful;
  }

  lemma RecordStep(s: Node, c: Call, height: nat)
    requires NodeOk(s) && ElectionSpec.IsIndex(s.producers, c.idx)
    requires BlockInfo.Later(s.blocks, c.height) && BlockInfo.Later(s.blocks, height) && c.height < height
    ensures NodeOk(Next(s, c)) && BlockInfo.Later(Next(s, c).blocks, height)
  {
    FailsExactly(s, c);
    hide PayBlock, AuctionSpec.OnBlock, Elected, AuctionSpec.AuctionOk, FinOk, ElectionSpec.InRange, BlockInfo.Add;
    BlockInfo.AddKeeps(s.blocks, c.height, Time(c.slot));
    var blocks := Next(s, c).blocks;
    forall i | 0 <= i < |blocks| ensures blocks[i].height < height {
      assert blocks[i] in blocks;
    }
  }

  /** While heights grow, no onblock of any history ever fails, whatever else happens in between. */
  lemma NeverFails(start: Node, steps: seq<Action>, n: nat)
    requires LawfulRun(start, steps) && Growing(start, steps) && n < |steps| && steps[n].Block?
    ensures NodeOk(At(start, steps, n)) && Apply(At(start, steps, n), steps[n].c).Ok?
  {
    hide Apply, NodeOk;
    RecordsBehind(start, steps, n, n);
    assert Lawful(At(start, steps, n), steps[n]);
    RewardNonNegative(At(start, steps, n));
    FailsExactly(At(start, steps, n), steps[n].c);
  }

  lemma RewardNonNegative(s: Node)
    requires NodeOk(s)
    ensures s.rewards.initial >= 0
  {}
}
