/** Block rewards of flon.system: halving, the power loop, and the running totals. */
module EmissionSpec {
  import opened Common
  import opened Powers

  const SECOND: int := 1_000_000
  const HALF_SECOND: int := 500_000

  // Slot zero of block_timestamp, in microseconds since 1970.
  const SLOT_EPOCH: int := 946_684_800_000_000

  const HALVING_SECONDS: int := 5 * 365 * 24 * 3600
  const HALVING_BLOCKS: int := HALVING_SECONDS * 1000 / 500

  // Times are in microseconds, zero meaning not set; amounts are raw 64-bit fields.
  datatype State = State(
    activated: int,
    started: int,
    initial: int,
    produced: int,
    unclaimed: int,
    producers: map<Name, int>)

  datatype Error =
    | NegativeReward
    | ActivationNotInFuture
    | ActivationFixed
    | StartBeforeActivation
    | StartNotInFuture
    | StartFixed
    | DivisionByZero

  const EMPTY: State := State(0, 0, 0, 0, 0, map[])

  function Time(slot: Slot): int {
    SLOT_EPOCH + slot * HALF_SECOND
  }

  // What the loop of power() leaves in its 64-bit register.
  function Power(base: int, exp: nat): int {
    if exp == 0 then 1 else Int64(Power(base, exp - 1) * base)
  }

  // Division truncates towards zero.
  function Divide(x: int, y: int): int
    requires x >= 0 && y != 0
  {
    if y > 0 then x / y else -(x / -y)
  }

  function Period(s: State, slot: Slot): nat
    requires s.started <= Time(slot)
  {
    (Time(slot) - s.started) / SECOND / HALVING_SECONDS
  }

  predicate Rewarding(s: State, slot: Slot, producer: Name) {
    && s.activated != 0 && s.activated <= Time(slot)
    && producer in s.producers && s.started != 0 && s.started <= Time(slot)
  }

  function PayBlock(s: State, slot: Slot, producer: Name): Result<State, Error>
    requires s.initial >= 0
  {
    if !Rewarding(s, slot, producer) then Ok(s)
    else if Power(2, Period(s, slot)) == 0 then Err(DivisionByZero)
    else
      var reward := Divide(s.initial, Power(2, Period(s, slot)));
      Ok(s.(producers := s.producers[producer := Int64(s.producers[producer] + reward)],
            produced := Int64(s.produced + reward),
            unclaimed := Int64(s.unclaimed + reward)))
  }

  function Configure(s: State, activated: int, started: int, initial: int, now: int): Result<State, Error> {
    if initial < 0 then Err(NegativeReward)
    else if (s.activated == 0 || s.activated > now) && activated <= now then Err(ActivationNotInFuture)
    else if !(s.activated == 0 || s.activated > now) && activated != s.activated then Err(ActivationFixed)
    else if started < activated then Err(StartBeforeActivation)
    else if (s.started == 0 || s.started > now) && started <= now then Err(StartNotInFuture)
    else if !(s.started == 0 || s.started > now) && started != s.started then Err(StartFixed)
    else Ok(s.(activated := activated, started := started, initial := initial))
  }

  function Register(s: State, producer: Name): State {
    if producer in s.producers then s else s.(producers := s.producers[producer := 0])
  }

  // ---- the power loop ----

  lemma PowOne(b: nat)
    ensures Pow(b, 1) == b
  {}

  lemma PowTwo62()
    ensures Pow(2, 62) == 0x4000_0000_0000_0000
  {
    PowOne(2);
    hide Pow;
    PowAdd(2, 1, 1);
    assert Pow(2, 2) == 0x4;
    PowAdd(2, 1, 2);
    assert Pow(2, 3) == 0x8;
    PowAdd(2, 3, 3);
    assert Pow(2, 6) == 0x40;
    PowAdd(2, 1, 6);
    assert Pow(2, 7) == 0x80;
    PowAdd(2, 7, 7);
    assert Pow(2, 14) == 0x4000;
    PowAdd(2, 1, 14);
    assert Pow(2, 15) == 0x8000;
    PowAdd(2, 15, 15);
    assert Pow(2, 30) == 0x40000000;
    PowAdd(2, 1, 30);
    assert Pow(2, 31) == 0x80000000;
    PowAdd(2, 31, 31);
    assert Pow(2, 62) == 0x4000000000000000;
  }

  lemma {:induction false} PowerExact(k: nat)
    requires k <= 62
    ensures Power(2, k) == Pow(2, k) <= 0x4000_0000_0000_0000
  {
    PowTwo62();
    PowGrowsInExponent(2, k, 62);
    if k > 0 {
      PowerExact(k - 1);
    }
  }

  lemma {:induction false} PowerVanishes(k: nat)
    requires k >= 64
    ensures Power(2, k) == 0
  {
    if k == 64 {
      PowerExact(62);
      PowTwo62();
      PowerTail(62);
    } else {
      PowerVanishes(k - 1);
    }
  }

  // Where the register wraps.
  lemma PowerTail(k: nat)
    requires Power(2, k) == 0x4000_0000_0000_0000
    ensures Power(2, k + 1) == -0x8000_0000_0000_0000 && Power(2, k + 2) == 0
  {}

  /**
   * The loop is exact for 62 halvings. One more leaves the most negative number, which still gives the
   * reward 0 that halving calls for; after 64 halvings the divisor is 0.
   */
  lemma RewardHalves(initial: int, k: nat)
    requires 0 <= initial <= INT64_MAX
    ensures Power(2, k) == 0 <==> k >= 64
    ensures k < 64 ==> Divide(initial, Power(2, k)) == Halved(initial, k)
  {
    if k <= 62 {
      PowerExact(k);
    } else if k == 63 {
      PowerExact(62);
      PowTwo62();
      PowerTail(62);
      DoublesOver(62, initial);
    } else {
      PowerVanishes(k);
    }
  }

  function Halved(initial: nat, k: nat): nat {
    initial / Pow(2, k)
  }

  lemma DoublesOver(k: nat, initial: nat)
    requires initial < 2 * Pow(2, k)
    ensures Halved(initial, k + 1) == 0
  {
    DivUnique(initial, Pow(2, k + 1), 0, initial);
  }

  // When each configuration is allowed: a time that has passed stays, any other lies in the future.
  predicate MaySet(current: int, wanted: int, now: int) {
    if current != 0 && current <= now then wanted == current else wanted > now
  }

  /**
   * A configuration is accepted exactly when both times may be set in this order and the reward is not
   * negative; it then leaves exactly the three given values and nothing else changed.
   */
  lemma ConfigureExact(s: State, activated: int, started: int, initial: int, now: int)
    ensures Configure(s, activated, started, initial, now).Ok? <==>
              && initial >= 0 && activated <= started
              && MaySet(s.activated, activated, now) && MaySet(s.started, started, now)
    ensures Configure(s, activated, started, initial, now).Ok? ==>
              Configure(s, activated, started, initial, now).value
              == State(activated, started, initial, s.produced, s.unclaimed, s.producers)
  {}

  // The fields after crediting a reward to a producer.
  function Credited(s: State, producer: Name, reward: int): State
    requires producer in s.producers
  {
    s.(producers := s.producers[producer := Int64(s.producers[producer] + reward)],
       produced := Int64(s.produced + reward),
       unclaimed := Int64(s.unclaimed + reward))
  }

  // 32-bit slots end in 2068, within twenty halving periods of any start.
  lemma PeriodsFew(s: State, slot: Slot)
    requires 0 < s.started <= Time(slot)
    ensures Period(s, slot) < 20
  {}

  /**
   * The reward part of onblock never aborts: no block comes late enough for the loop to wrap. It credits
   * the halved reward, or nothing.
   */
  lemma PayBlockExact(s: State, slot: Slot, producer: Name)
    requires 0 <= s.initial <= INT64_MAX && s.started >= 0
    ensures PayBlock(s, slot, producer) ==
              Ok(if Rewarding(s, slot, producer) then Credited(s, producer, Halved(s.initial, Period(s, slot))) else s)
    ensures Rewarding(s, slot, producer) ==> Power(2, Period(s, slot)) == Pow(2, Period(s, slot))
  {
    hide Divide, Halved, Period;
    if Rewarding(s, slot, producer) {
      PeriodsFew(s, slot);
      RewardHalves(s.initial, Period(s, slot));
      PowerExact(Period(s, slot));
    }
  }

  // ---- how much a schedule of one block per slot can produce ----

  // The rewards of the first j slots when every one of them has a block.
  function Capacity(initial: nat, j: nat): nat {
    if j == 0 then 0
    else
      Capacity(initial, j - 1) + Halved(initial, (j - 1) / HALVING_BLOCKS)
  }

  lemma NextBlock(j: nat, n: nat)
    requires n > 0
    ensures if (j + 1) % n == 0 then j % n == n - 1 && (j + 1) / n == j / n + 1
            else (j + 1) / n == j / n && (j + 1) % n == j % n + 1
  {
    var q, r := j / n, j % n;
    assert j == n * q + r;
    if r == n - 1 {
      assert n * (q + 1) == n * q + n;
      DivUnique(j + 1, n, q + 1, 0);
    } else {
      DivUnique(j + 1, n, q, r + 1);
    }
  }

  lemma {:induction false} CapacityBound(initial: nat, j: nat)
    ensures var k, r := j / HALVING_BLOCKS, j % HALVING_BLOCKS;
            Capacity(initial, j) * Pow(2, k) <= initial * (2 * HALVING_BLOCKS * Pow(2, k) - 2 * HALVING_BLOCKS + r)
  {
    if j > 0 {
      CapacityBound(initial, j - 1);
      NextBlock(j - 1, HALVING_BLOCKS);
      var k := (j - 1) / HALVING_BLOCKS;
      SeriesStep(initial, Capacity(initial, j - 1), Pow(2, k), (j - 1) % HALVING_BLOCKS, HALVING_BLOCKS);
    }
  }

  // One block more within a period, and across the boundary of two.
  lemma SeriesStep(initial: nat, total: nat, p: nat, r: nat, n: nat)
    requires p > 0 && r < n && total * p <= initial * (2 * n * p - 2 * n + r)
    ensures var next := total + initial / p;
            && next * p <= initial * (2 * n * p - 2 * n + (r + 1))
            && (r + 1 == n ==> next * (2 * p) <= initial * (2 * n * (2 * p) - 2 * n))
  {
    var q, c := initial / p, 2 * n * p - 2 * n;
    assert q * p <= initial;
    assert (total + q) * p == total * p + q * p;
    assert initial * (c + (r + 1)) == initial * (c + r) + initial;
    if r + 1 == n {
      assert (total + q) * (2 * p) == 2 * ((total + q) * p);
      assert 2 * (initial * (c + n)) == initial * (2 * (c + n));
      assert 2 * (c + n) == 2 * n * (2 * p) - 2 * n;
    }
  }

  /** All blocks together stay below twice the reward of the first period. */
  lemma CapacityLimited(initial: nat, j: nat)
    requires initial > 0
    ensures Capacity(initial, j) < 2 * initial * HALVING_BLOCKS
  {
    var k, r := j / HALVING_BLOCKS, j % HALVING_BLOCKS;
    var p := Pow(2, k);
    CapacityBound(initial, j);
    Limit(initial, Capacity(initial, j), p, r, HALVING_BLOCKS);
  }

  lemma Limit(initial: nat, total: nat, p: nat, r: nat, n: nat)
    requires initial > 0 && p > 0 && r < n && total * p <= initial * (2 * n * p - 2 * n + r)
    ensures total < 2 * initial * n
  {
    var bound := 2 * initial * n;
    assert initial * (2 * n * p - 2 * n + r) == bound * p - initial * (2 * n - r);
    assert initial * (2 * n - r) > 0;
    assert total * p < bound * p;
    if total >= bound {
      Between(bound, total, p);
    }
  }

  lemma {:induction false} CapacityGrows(initial: nat, i: nat, j: nat)
    requires i <= j
    ensures Capacity(initial, i) <= Capacity(initial, j)
  {
    hide Halved;
    if i < j {
      CapacityGrows(initial, i, j - 1);
    }
  }

  // The number of whole slots between the start of the rewards and the block.
  function Elapsed(started: int, slot: Slot): nat
    requires started <= Time(slot)
  {
    (Time(slot) - started) / HALF_SECOND
  }

  lemma Regroup(a: nat, b: nat, q: nat, t: nat, r: nat)
    requires r < a && t < b
    ensures a * (b * q + t) + r == (a * b) * q + (a * t + r) && a * t + r < a * b
  {
    Between(t, b - 1, a);
    assert a * (b * q + t) == a * (b * q) + a * t && a * (b * q) == (a * b) * q;
  }

  lemma DivDivFrom(x: nat, a: nat, b: nat, q: nat, t: nat, r: nat)
    requires r < a && t < b && x == a * (b * q + t) + r
    ensures a * b > 0 && x / (a * b) == q
  {
    Regroup(a, b, q, t, r);
    Between(0, t, a);
    DivUnique(x, a * b, q, a * t + r);
  }

  lemma DivDiv(x: nat, a: nat, b: nat)
    requires a > 0 && b > 0
    ensures a * b > 0 && x / a / b == x / (a * b)
  {
    var y := x / a;
    var q, t := y / b, y % b;
    assert y == b * q + t;
    DivDivFrom(x, a, b, q, t, x % a);
  }

  // The number of whole slots before the block in which rewards ran; there are none before slot zero.
  function Rank(started: int, slot: Slot): nat
    requires started <= Time(slot)
  {
    if Elapsed(started, slot) < slot then Elapsed(started, slot) else slot
  }

  lemma RankGrows(started: int, last: Slot, slot: Slot)
    requires last < slot && started <= Time(last)
    ensures Rank(started, last) + 1 <= Rank(started, slot)
  {
    var x := Time(last) - started;
    assert (x + HALF_SECOND) / HALF_SECOND == x / HALF_SECOND + 1;
    DivGrows(x + HALF_SECOND, Time(slot) - started, HALF_SECOND);
  }

  lemma HalvedMoves(initial: nat, limit: nat, j: nat, k: nat)
    requires initial <= limit && j <= k
    ensures Halved(initial, k) <= Halved(limit, j)
  {
    PowGrowsInExponent(2, j, k);
    DivGrows(initial, limit, Pow(2, k));
    DivShrinks(limit, Pow(2, j), Pow(2, k));
  }

  // The rewards of one block in each of the first k periods.
  function PeriodSum(initial: nat, k: nat): nat {
    if k == 0 then 0 else PeriodSum(initial, k - 1) + Halved(initial, k - 1)
  }

  lemma {:induction false} CapacityInPeriods(initial: nat, k: nat, r: nat)
    requires r <= HALVING_BLOCKS
    ensures Capacity(initial, k * HALVING_BLOCKS + r) == HALVING_BLOCKS * PeriodSum(initial, k) + r * Halved(initial, k)
    decreases k, r
  {
    hide Halved;
    if r > 0 {
      hide PeriodSum;
      CapacityInPeriods(initial, k, r - 1);
      InPeriod(k, r - 1);
      OneMore(r - 1, Halved(initial, k));
    } else if k > 0 {
      hide Capacity;
      CapacityInPeriods(initial, k - 1, HALVING_BLOCKS);
      assert (k - 1) * HALVING_BLOCKS + HALVING_BLOCKS == k * HALVING_BLOCKS;
    } else {
      assert Capacity(initial, 0) == 0;
    }
  }

  lemma InPeriod(k: nat, r: nat)
    requires r < HALVING_BLOCKS
    ensures (k * HALVING_BLOCKS + r) / HALVING_BLOCKS == k
  {
    DivUnique(k * HALVING_BLOCKS + r, HALVING_BLOCKS, k, r);
  }

  lemma OneMore(r: int, h: int)
    ensures (r + 1) * h == r * h + h
  {}

  // All that 32-bit slots can produce: thirteen whole periods and part of the fourteenth.
  function Ceiling(initial: nat): nat {
    HALVING_BLOCKS * PeriodSum(initial, 13) + 195_287_296 * Halved(initial, 13)
  }

  lemma CeilingIsCapacity(initial: nat)
    ensures Capacity(initial, TWO32) == Ceiling(initial)
  {
    CapacityInPeriods(initial, 13, 195_287_296);
  }

  /** The halving period counted in seconds is the one counted in slots. */
  lemma PeriodInSlots(s: State, slot: Slot)
    requires s.started <= Time(slot)
    ensures Period(s, slot) == Elapsed(s.started, slot) / HALVING_BLOCKS
  {
    var x := Time(slot) - s.started;
    DivDiv(x, HALF_SECOND, 2);
    DivDiv(x / HALF_SECOND, 2, HALVING_SECONDS);
  }
}

/** Histories of blocks and configurations, and the contract's own fields. */
module Emission {
  import opened Common
  import opened Powers
  import opened Sums
  import opened EmissionSpec

  datatype Action =
    | Block(slot: Slot, producer: Name)
    | Configuring(activated: int, started: int, initial: int, now: nat)
    | Registering(producer: Name)

  ghost function Apply(s: State, a: Action): Result<State, Error>
    requires s.initial >= 0
  {
    match a
    case Block(slot, producer) => PayBlock(s, slot, producer)
    case Configuring(activated, started, initial, now) => Configure(s, activated, started, initial, now)
    case Registering(producer) => Ok(Register(s, producer))
  }

  ghost function At(steps: seq<Action>, n: nat): (s: State)
    requires n <= |steps|
    ensures s.initial >= 0 && s.started >= 0
  {
    if n == 0 then EMPTY
    else
      match Apply(At(steps, n - 1), steps[n - 1])
      case Ok(t) => t
      case Err(_) => At(steps, n - 1)
  }

  // At most one block per slot, and no configuration is older than a block before it.
  ghost predicate InOrder(steps: seq<Action>) {
    && (forall i, j :: 0 <= i < j < |steps| && steps[i].Block? && steps[j].Block? ==> steps[i].slot < steps[j].slot)
    && (forall i, j :: 0 <= i < j < |steps| && steps[i].Block? && steps[j].Configuring? ==>
          Time(steps[i].slot) <= steps[j].now)
  }

  // No configured block reward exceeds the limit.
  ghost predicate AtMost(steps: seq<Action>, limit: nat) {
    forall i :: 0 <= i < |steps| && steps[i].Configuring? ==> steps[i].initial <= limit
  }

  // ---- the exact amounts behind the 64-bit fields ----

  // What a block is worth.
  function BlockReward(s: State, slot: Slot, producer: Name): nat
    requires s.initial >= 0
  {
    if Rewarding(s, slot, producer) then Halved(s.initial, Period(s, slot)) else 0
  }

  function PayExact(s: State, slot: Slot, producer: Name): State
    requires s.initial >= 0
  {
    var reward := BlockReward(s, slot, producer);
    if producer !in s.producers then s
    else s.(producers := s.producers[producer := s.producers[producer] + reward],
            produced := s.produced + reward, unclaimed := s.unclaimed + reward)
  }

  // The same history with totals that do not wrap.
  ghost function ExactAt(steps: seq<Action>, n: nat): (s: State)
    requires n <= |steps|
    ensures s.initial >= 0 && s.started >= 0
  {
    if n == 0 then EMPTY
    else
      var s, a := ExactAt(steps, n - 1), steps[n - 1];
      if a.Block? then PayExact(s, a.slot, a.producer)
      else match Apply(s, a) case Ok(t) => t case Err(_) => s
  }

  // The fields hold the exact amounts modulo 2^64.
  ghost predicate Wraps(s: State, e: State) {
    && s.activated == e.activated && s.started == e.started && s.initial == e.initial
    && s.producers.Keys == e.producers.Keys
    && (forall p :: p in e.producers ==> s.producers[p] == Int64(e.producers[p]))
    && s.produced == Int64(e.produced) && s.unclaimed == Int64(e.unclaimed)
  }

  lemma Int64Sum(x: int, y: int)
    ensures Int64(Int64(x) + y) == Int64(x + y) && Int64(Int64(x)) == Int64(x)
  {
    var k := (x + INT64_MAX + 1) / TWO64;
    assert Int64(x) == x - k * TWO64;
    var u := x + y + INT64_MAX + 1;
    assert (u - k * TWO64) % TWO64 == u % TWO64;
  }

  lemma BlockWraps(s: State, e: State, slot: Slot, producer: Name)
    requires Wraps(s, e) && 0 <= s.initial <= INT64_MAX && s.started >= 0
    ensures PayBlock(s, slot, producer).Ok?
    ensures Wraps(PayBlock(s, slot, producer).value, PayExact(e, slot, producer))
    ensures PayExact(e, slot, producer).initial == e.initial
  {
    hide PayBlock, Halved, Period, Int64;
    PayBlockExact(s, slot, producer);
    assert Rewarding(s, slot, producer) == Rewarding(e, slot, producer);
    var reward := BlockReward(e, slot, producer);
    assert BlockReward(s, slot, producer) == reward by {
      SamePeriod(s, e, slot);
    }
    if producer in e.producers {
      Int64Sum(e.producers[producer], reward);
      Int64Sum(e.produced, reward);
      Int64Sum(e.unclaimed, reward);
      SamePeriod(s, e, slot);
    }
  }

  lemma SamePeriod(s: State, e: State, slot: Slot)
    requires s.started == e.started
    ensures s.started <= Time(slot) ==> Period(s, slot) == Period(e, slot)
  {}

  /** The contract's fields are the exact amounts modulo 2^64, whatever happens. */
  lemma {:induction false} FieldsWrap(steps: seq<Action>, n: nat)
    requires n <= |steps| && AtMost(steps, INT64_MAX)
    ensures Wraps(At(steps, n), ExactAt(steps, n)) && At(steps, n).initial <= INT64_MAX
  {
    hide PayBlock, PayExact, Int64;
    if n > 0 {
      FieldsWrap(steps, n - 1);
      var s, e, a := At(steps, n - 1), ExactAt(steps, n - 1), steps[n - 1];
      if a.Block? {
        BlockWraps(s, e, a.slot, a.producer);
      }
    }
  }

  // ---- how much there can be ----

  // What the totals add up to, and how much the blocks up to a slot can have brought.
  ghost predicate Balanced(s: State, limit: nat, last: Option<Slot>) {
    && 0 <= s.initial <= limit
    && s.produced == s.unclaimed == Sum(s.producers) && s.produced >= 0
    && (forall p :: p in s.producers ==> s.producers[p] >= 0)
    && (s.produced > 0 ==>
          && last.Some? && s.started != 0 && s.started <= Time(last.value)
          && s.produced <= Capacity(limit, Rank(s.started, last.value) + 1))
  }

  // What the blocks before this slot can have produced.
  lemma CapacityBefore(s: State, limit: nat, last: Option<Slot>, slot: Slot)
    requires Balanced(s, limit, last) && (last.Some? ==> last.value < slot)
    ensures s.produced > 0 ==> s.started <= Time(slot) && s.produced <= Capacity(limit, Rank(s.started, slot))
  {
    if s.produced > 0 {
      RankGrows(s.started, last.value, slot);
      CapacityGrows(limit, Rank(s.started, last.value) + 1, Rank(s.started, slot));
    }
  }

  lemma RewardAtMost(s: State, limit: nat, slot: Slot)
    requires 0 <= s.initial <= limit && s.started <= Time(slot)
    ensures Halved(s.initial, Period(s, slot)) <= Halved(limit, Rank(s.started, slot) / HALVING_BLOCKS)
  {
    hide Halved;
    PeriodInSlots(s, slot);
    DivGrows(Rank(s.started, slot), Elapsed(s.started, slot), HALVING_BLOCKS);
    HalvedMoves(s.initial, limit, Rank(s.started, slot) / HALVING_BLOCKS, Period(s, slot));
  }

  /** One block keeps the three records equal and within what its slot allows. */
  lemma BlockKeeps(s: State, limit: nat, last: Option<Slot>, slot: Slot, producer: Name)
    requires Balanced(s, limit, last) && (last.Some? ==> last.value < slot)
    ensures Balanced(PayExact(s, slot, producer), limit, Some(slot))
  {
    hide Capacity, Halved, Rank, Period, Time;
    CapacityBefore(s, limit, last, slot);
    var reward := BlockReward(s, slot, producer);
    if producer in s.producers {
      SumUpdate(s.producers, producer, s.producers[producer] + reward);
    }
    if s.started <= Time(slot) {
      var j := Rank(s.started, slot);
      CapacityGrows(limit, j, j + 1);
      CapacityStep(limit, j);
      RewardAtMost(s, limit, slot);
    }
  }

  lemma CapacityStep(limit: nat, j: nat)
    ensures Capacity(limit, j + 1) == Capacity(limit, j) + Halved(limit, j / HALVING_BLOCKS)
  {}

  /** A start that has passed cannot be moved any more, nor an activation. */
  lemma ConfigurationFixed(s: State, activated: int, started: int, initial: int, now: int)
    requires Configure(s, activated, started, initial, now).Ok?
    ensures s.activated != 0 && s.activated <= now ==> activated == s.activated
    ensures s.started != 0 && s.started <= now ==> started == s.started
    ensures !(s.started != 0 && s.started <= now) ==> started > now
    ensures activated <= started && initial >= 0
  {}

  /** Once the start has passed, no later configuration moves it, whatever else happens. */
  lemma {:induction false} StartNeverMoves(steps: seq<Action>, m: nat, n: nat)
    requires m <= n <= |steps| && At(steps, m).started != 0
    requires forall i :: m <= i < n && steps[i].Configuring? ==> At(steps, m).started <= steps[i].now
    ensures At(steps, n).started == At(steps, m).started
  {
    hide Period, Power, Divide, Rewarding;
    if m < n {
      StartNeverMoves(steps, m, n - 1);
    }
  }

  lemma OtherKeeps(s: State, a: Action, limit: nat, last: Option<Slot>)
    requires Balanced(s, limit, last) && !a.Block? && Apply(s, a).Ok?
    requires a.Configuring? ==> a.initial <= limit && (last.Some? ==> Time(last.value) <= a.now)
    ensures Balanced(Apply(s, a).value, limit, last)
  {
    hide Capacity, Rank, Time;
    if a.Configuring? {
      ConfigurationFixed(s, a.activated, a.started, a.initial, a.now);
    } else if a.producer !in s.producers {
      SumUpdate(s.producers, a.producer, 0);
    }
  }

  function LastSlot(steps: seq<Action>, n: nat): Option<Slot>
    requires n <= |steps|
  {
    if n == 0 then None
    else if steps[n - 1].Block? then Some(steps[n - 1].slot)
    else LastSlot(steps, n - 1)
  }

  lemma {:induction false} LastSlotIs(steps: seq<Action>, n: nat)
    requires n <= |steps| && LastSlot(steps, n).Some?
    ensures exists i :: 0 <= i < n && steps[i].Block? && steps[i].slot == LastSlot(steps, n).value
  {
    if !steps[n - 1].Block? {
      LastSlotIs(steps, n - 1);
    }
  }

  lemma {:induction false} RunBalanced(steps: seq<Action>, n: nat, limit: nat)
    requires n <= |steps| && InOrder(steps) && AtMost(steps, limit)
    ensures Balanced(ExactAt(steps, n), limit, LastSlot(steps, n))
  {
    hide Balanced, Apply, PayExact;
    if n == 0 {
      EmptyBalanced(limit);
    } else {
      RunBalanced(steps, n - 1, limit);
      var s, a, last := ExactAt(steps, n - 1), steps[n - 1], LastSlot(steps, n - 1);
      if last.Some? {
        LastSlotIs(steps, n - 1);
      }
      if a.Block? {
        BlockKeeps(s, limit, last, a.slot, a.producer);
      } else if Apply(s, a).Ok? {
        OtherKeeps(s, a, limit, last);
      }
    }
  }

  lemma EmptyBalanced(limit: nat)
    ensures Balanced(EMPTY, limit, None)
  {}

  /**
   * Over every history with one block per slot, whatever is reconfigured on the way, all rewards
   * produced stay below a fixed ceiling for the highest configured reward, which is less than twice those
   * of a first period, and they are the sum of what the producers have been credited.
   */
  lemma EmissionBound(steps: seq<Action>, n: nat, limit: nat)
    requires n <= |steps| && InOrder(steps) && AtMost(steps, limit) && 0 < limit
    ensures 0 <= ExactAt(steps, n).produced <= Ceiling(limit) < 2 * limit * HALVING_BLOCKS
    ensures ExactAt(steps, n).produced == ExactAt(steps, n).unclaimed == Sum(ExactAt(steps, n).producers)
  {
    hide ExactAt, Capacity, Ceiling;
    RunBalanced(steps, n, limit);
    var s, last := ExactAt(steps, n), LastSlot(steps, n);
    CeilingIsCapacity(limit);
    CapacityLimited(limit, TWO32);
    if s.produced > 0 {
      CapacityGrows(limit, Rank(s.started, last.value) + 1, TWO32);
    }
  }

  // ---- what a block is worth ----

  // Step i is the last configuration before step n that was accepted.
  ghost predicate LatestConfigured(steps: seq<Action>, n: nat, i: nat) {
    && i < n <= |steps| && steps[i].Configuring? && Apply(At(steps, i), steps[i]).Ok?
    && forall j :: i < j < n && steps[j].Configuring? ==> Apply(At(steps, j), steps[j]).Err?
  }

  ghost predicate NeverConfigured(steps: seq<Action>, n: nat)
    requires n <= |steps|
  {
    forall j :: 0 <= j < n && steps[j].Configuring? ==> Apply(At(steps, j), steps[j]).Err?
  }

  /** The times and the reward in force are those of the latest accepted configuration. */
  lemma {:induction false} InForce(steps: seq<Action>, n: nat, i: nat)
    requires LatestConfigured(steps, n, i)
    ensures var s, a := At(steps, n), steps[i];
            s.activated == a.activated && s.started == a.started && s.initial == a.initial
  {
    hide PayBlock, Configure;
    var s, a := At(steps, n - 1), steps[n - 1];
    if i == n - 1 {
      ConfigureExact(s, a.activated, a.started, a.initial, a.now);
    } else {
      InForce(steps, n - 1, i);
      if !a.Configuring? && Apply(s, a).Ok? {
        OnlyConfiguring(s, a);
      }
    }
  }

  lemma {:induction false} NotInForce(steps: seq<Action>, n: nat)
    requires n <= |steps| && NeverConfigured(steps, n)
    ensures At(steps, n).activated == 0 && At(steps, n).started == 0
  {
    hide PayBlock, Configure;
    if n > 0 {
      NotInForce(steps, n - 1);
      if !steps[n - 1].Configuring? && Apply(At(steps, n - 1), steps[n - 1]).Ok? {
        OnlyConfiguring(At(steps, n - 1), steps[n - 1]);
      }
    }
  }

  lemma OnlyConfiguring(s: State, a: Action)
    requires s.initial >= 0 && Apply(s, a).Ok? && !a.Configuring?
    ensures var t := Apply(s, a).value;
            t.activated == s.activated && t.started == s.started && t.initial == s.initial
  {}

  /** The producers that can earn are those registered before, whatever else happened. */
  lemma {:induction false} RegisteredProducers(steps: seq<Action>, n: nat, p: Name)
    requires n <= |steps|
    ensures p in At(steps, n).producers <==> exists i :: 0 <= i < n && steps[i] == Registering(p)
  {
    hide Period, Power, Divide, Configure;
    if n > 0 {
      RegisteredProducers(steps, n - 1, p);
      if Apply(At(steps, n - 1), steps[n - 1]).Ok? {
        KeepsProducers(At(steps, n - 1), steps[n - 1]);
      }
    }
  }

  lemma KeepsProducers(s: State, a: Action)
    requires s.initial >= 0 && Apply(s, a).Ok?
    ensures Apply(s, a).value.producers.Keys == s.producers.Keys + if a.Registering? then {a.producer} else {}
  {
    hide Period, Power, Divide;
  }

  // The fields after the producer has earned an amount.
  ghost predicate Earned(s: State, t: State, producer: Name, amount: nat) {
    && producer in s.producers && t == s.(produced := t.produced, unclaimed := t.unclaimed, producers := t.producers)
    && t.producers == s.producers[producer := Int64(s.producers[producer] + amount)]
    && t.produced == Int64(s.produced + amount) && t.unclaimed == Int64(s.unclaimed + amount)
  }

  /**
   * Over every history a block of a registered producer, from the activation and the start of the latest
   * accepted configuration on, earns that configuration's reward halved once per five years since the
   * start; any other block earns nothing.
   */
  lemma BlockEarns(steps: seq<Action>, n: nat, i: nat)
    requires n < |steps| && steps[n].Block? && AtMost(steps, INT64_MAX) && LatestConfigured(steps, n, i)
    ensures var s, b, c := At(steps, n), steps[n], steps[i];
            if b.producer in s.producers && c.activated <= Time(b.slot) && c.started <= Time(b.slot)
            then Earned(s, At(steps, n + 1), b.producer,
                        c.initial / Pow(2, (Time(b.slot) - c.started) / 1_000_000 / 157_680_000))
            else At(steps, n + 1) == s
  {
    hide PayBlock, At;
    var s, b := At(steps, n), steps[n];
    InForce(steps, n, i);
    ConfiguredTimes(steps, i);
    FieldsWrap(steps, n);
    PayBlockExact(s, b.slot, b.producer);
    BlockNext(steps, n);
  }

  lemma UnconfiguredEarnsNothing(steps: seq<Action>, n: nat)
    requires n < |steps| && steps[n].Block? && AtMost(steps, INT64_MAX) && NeverConfigured(steps, n)
    ensures At(steps, n + 1) == At(steps, n)
  {
    hide PayBlock, At;
    NotInForce(steps, n);
    FieldsWrap(steps, n);
    PayBlockExact(At(steps, n), steps[n].slot, steps[n].producer);
    BlockNext(steps, n);
  }

  lemma BlockNext(steps: seq<Action>, n: nat)
    requires n < |steps| && steps[n].Block?
    ensures At(steps, n + 1) ==
              match PayBlock(At(steps, n), steps[n].slot, steps[n].producer) case Ok(t) => t case Err(_) => At(steps, n)
  {}

  lemma ConfiguredTimes(steps: seq<Action>, i: nat)
    requires i < |steps| && steps[i].Configuring? && Apply(At(steps, i), steps[i]).Ok?
    ensures steps[i].activated != 0 && steps[i].started != 0 && steps[i].initial >= 0
  {
    hide At;
    var a := steps[i];
    ConfigureExact(At(steps, i), a.activated, a.started, a.initial, a.now);
  }

  /**
   * The fields for produced and unclaimed rewards always agree; they and the producers' fields hold
   * the exact amounts if and only if what has been produced fits 64 bits.
   */
  lemma TotalsAgree(steps: seq<Action>, n: nat, limit: nat)
    requires n <= |steps| && InOrder(steps) && AtMost(steps, limit) && 0 < limit <= INT64_MAX
    ensures At(steps, n).produced == At(steps, n).unclaimed
    ensures At(steps, n) == ExactAt(steps, n) <==> ExactAt(steps, n).produced <= INT64_MAX
    ensures Ceiling(limit) <= INT64_MAX ==>
              && At(steps, n) == ExactAt(steps, n)
              && At(steps, n).produced == At(steps, n).unclaimed == Sum(At(steps, n).producers) >= 0
  {
    hide ExactAt, At, Ceiling;
    EmissionBound(steps, n, limit);
    RunBalanced(steps, n, limit);
    FieldsWrap(steps, n);
    var s, e := At(steps, n), ExactAt(steps, n);
    if e.produced <= INT64_MAX {
      forall p | p in e.producers ensures s.producers[p] == e.producers[p] {
        SumTerm(e.producers, p);
      }
      assert s.producers == e.producers;
    }
  }

  /** Told before a block: exact fields stay exact if and only if the reward still fits. */
  lemma BlockStaysExact(steps: seq<Action>, n: nat)
    requires n < |steps| && InOrder(steps) && AtMost(steps, INT64_MAX) && steps[n].Block?
    requires At(steps, n) == ExactAt(steps, n)
    ensures At(steps, n + 1) == ExactAt(steps, n + 1)
       <==> At(steps, n).produced + BlockReward(At(steps, n), steps[n].slot, steps[n].producer) <= INT64_MAX
  {
    hide At, Ceiling, Period, Halved;
    TotalsAgree(steps, n, INT64_MAX);
    TotalsAgree(steps, n + 1, INT64_MAX);
  }

  // ---- which configured rewards are safe ----

  // With no reward configured above the limit, the fields hold the exact amounts in every history.
  ghost predicate AlwaysExact(limit: nat) {
    forall steps: seq<Action>, n: nat :: n <= |steps| && InOrder(steps) && AtMost(steps, limit) ==>
      At(steps, n) == ExactAt(steps, n)
  }

  // One producer makes a block in every slot there is, at a constant configured reward.
  ghost function FullHistory(limit: nat): seq<Action> {
    [Registering(1), Configuring(Time(0), Time(0), limit, Time(0) - 1)]
    + seq(TWO32, i requires 0 <= i < TWO32 => Block(i, 1))
  }

  lemma {:induction false} FullProduces(limit: nat, j: nat)
    requires j <= TWO32
    ensures |FullHistory(limit)| == TWO32 + 2
    ensures ExactAt(FullHistory(limit), j + 2) == State(Time(0), Time(0), limit, Capacity(limit, j),
                                                        Capacity(limit, j), map[1 := Capacity(limit, j)])
  {
    hide Halved;
    var steps := FullHistory(limit);
    if j == 0 {
      assert ExactAt(steps, 1) == EMPTY.(producers := map[1 := 0]);
    } else {
      FullProduces(limit, j - 1);
      assert steps[j + 1] == Block(j - 1, 1);
      var s := ExactAt(steps, j + 1);
      PeriodInSlots(s, j - 1);
      DivUnique(Time(j - 1) - Time(0), HALF_SECOND, j - 1, 0);
    }
  }

  lemma FullLegal(limit: nat)
    ensures InOrder(FullHistory(limit)) && AtMost(FullHistory(limit), limit)
  {
    var steps := FullHistory(limit);
    assert forall i :: 2 <= i < |steps| ==> steps[i] == Block(i - 2, 1);
  }

  /**
   * A limit on the configured block reward keeps the fields exact in every history if and only if all
   * that 32-bit slots can produce at that reward fits 64 bits.
   */
  lemma ExactThreshold(limit: nat)
    requires 0 < limit <= INT64_MAX
    ensures AlwaysExact(limit) <==> Ceiling(limit) <= INT64_MAX
  {
    hide At, ExactAt, Ceiling, Capacity;
    if Ceiling(limit) <= INT64_MAX {
      forall steps: seq<Action>, n: nat | n <= |steps| && InOrder(steps) && AtMost(steps, limit)
        ensures At(steps, n) == ExactAt(steps, n)
      {
        TotalsAgree(steps, n, limit);
      }
    } else {
      var steps := FullHistory(limit);
      FullLegal(limit);
      FullProduces(limit, TWO32);
      CeilingIsCapacity(limit);
      TotalsAgree(steps, TWO32 + 2, limit);
    }
  }

  /** A configurable reward at which the third block already overflows the fields. */
  lemma ThirdBlockOverflows()
    ensures InOrder(FullHistory(MAX_ASSET)) && AtMost(FullHistory(MAX_ASSET), MAX_ASSET)
    ensures ExactAt(FullHistory(MAX_ASSET), 5).produced == 3 * MAX_ASSET
    ensures At(FullHistory(MAX_ASSET), 4) == ExactAt(FullHistory(MAX_ASSET), 4)
    ensures At(FullHistory(MAX_ASSET), 5) != ExactAt(FullHistory(MAX_ASSET), 5)
  {
    hide At, ExactAt, Ceiling, FullHistory;
    FullLegal(MAX_ASSET);
    FullProduces(MAX_ASSET, 2);
    FullProduces(MAX_ASSET, 3);
    FirstRewards(MAX_ASSET);
    TotalsAgree(FullHistory(MAX_ASSET), 4, MAX_ASSET);
    TotalsAgree(FullHistory(MAX_ASSET), 5, MAX_ASSET);
  }

  lemma FirstRewards(limit: nat)
    ensures Capacity(limit, 2) == 2 * limit && Capacity(limit, 3) == 3 * limit
  {
    CapacityInPeriods(limit, 0, 2);
    CapacityInPeriods(limit, 0, 3);
    assert Halved(limit, 0) == limit;
  }

  /** The contract's fields. */
  class BlockRewards {
    var activated: int
    var started: int
    var initial: int
    var produced: int
    var unclaimed: int
    var producers: map<Name, int>

    ghost function Tables(): State
      reads this
    {
      State(activated, started, initial, produced, unclaimed, producers)
    }

    constructor ()
      ensures Tables() == EMPTY
    {
      activated, started, initial, produced, unclaimed, producers := 0, 0, 0, 0, 0, map[];
    }

    /** The reward part of onblock; failing means that the whole action aborts. */
    method RewardBlock(slot: Slot, producer: Name) returns (ok: bool)
      requires initial >= 0
      modifies this
      ensures ok <==> PayBlock(old(Tables()), slot, producer).Ok?
      ensures old(started) >= 0 && old(initial) <= INT64_MAX ==> ok
      ensures Tables() == if ok then PayBlock(old(Tables()), slot, producer).value else old(Tables())
    {
      hide Int64, Power;
      if started >= 0 && initial <= INT64_MAX {
        PayBlockExact(Tables(), slot, producer);
      }
      ok := true;
      var now := SLOT_EPOCH + slot * HALF_SECOND;
      if activated == 0 || now < activated {
        return;
      }
      if producer in producers && started != 0 && now >= started {
        var period := (now - started) / SECOND / HALVING_SECONDS;
        var divisor := PowerLoop(2, period);
        if divisor == 0 {
          return false;
        }
        var reward := Divide(initial, divisor);
        producers := producers[producer := Int64(producers[producer] + reward)];
        produced := Int64(produced + reward);
        unclaimed := Int64(unclaimed + reward);
      }
    }

    method ConfigureElection(activatedTime: int, startedTime: int, reward: int, now: int) returns (ok: bool)
      modifies this
      ensures ok <==> Configure(old(Tables()), activatedTime, startedTime, reward, now).Ok?
      ensures Tables()
                == if ok then Configure(old(Tables()), activatedTime, startedTime, reward, now).value else old(Tables())
    {
      ok := false;
      if reward < 0 {
        return;
      }
      var saved := activated;
      if activated == 0 || activated > now {
        if activatedTime <= now {
          return;
        }
        activated := activatedTime;
      } else if activatedTime != activated {
        return;
      }
      if startedTime < activated {
        activated := saved;
        return;
      }
      if started == 0 || started > now {
        if startedTime <= now {
          activated := saved;
          return;
        }
        started := startedTime;
      } else if startedTime != started {
        activated := saved;
        return;
      }
      initial := reward;
      ok := true;
    }
  }

  /** power(): repeated multiplication in a 64-bit register. */
  method PowerLoop(base: int, exp: nat) returns (ret: int)
    ensures ret == Power(base, exp)
    ensures base == 2 && exp <= 62 ==> ret == Pow(2, exp)
    ensures base == 2 && exp >= 64 ==> ret == 0
  {
    ret := 1;
    var left := exp;
    while left > 0
      invariant 0 <= left <= exp && ret == Power(base, exp - left)
    {
      ret := Int64(ret * base);
      left := left - 1;
    }
    if base == 2 && exp <= 62 {
      PowerExact(exp);
    } else if base == 2 && exp >= 64 {
      PowerVanishes(exp);
    }
  }
}
