/** flon.msig: proposals, approvals and invalidations, and what each action does to them. */
module MultisigSpec {
  import opened Common

  const SECOND: nat := 1_000_000

  datatype Level = Level(actor: Name, permission: Name)

  // A packed transaction: the header fields that the contract reads, and everything else.
  datatype Trx = Trx(expiration: nat, delaySec: nat, contextFree: bool, payload: nat)

  // earliest_exec_time: the field missing from an old row, present but empty, or a time in microseconds.
  datatype Timer = Absent | Unset | Set(time: nat)

  datatype Proposal = Proposal(trx: Trx, earliest: Timer)
  datatype Approval = Approval(level: Level, time: nat)
  datatype Approvals = Approvals(requested: seq<Approval>, provided: seq<Approval>)

  // Rows are scoped by proposer and named by the proposal.
  datatype Key = Key(proposer: Name, name: Name)

  datatype State = State(
    proposals: map<Key, Proposal>,
    approvals: map<Key, Approvals>,
    invalidations: map<Name, nat>)

  // What the host answers during one action; permissions may change between actions.
  datatype Host = Host(now: nat, authorized: (Trx, seq<Level>) -> bool, sha256: Trx -> nat)

  datatype Action =
    | Propose(key: Key, levels: seq<Level>, trx: Trx)
    | Approve(key: Key, level: Level, hash: Option<nat>)
    | Unapprove(key: Key, level: Level)
    | Cancel(key: Key, canceler: Name)
    | Exec(key: Key)
    | Invalidate(account: Name)

  datatype Error =
    | EmptyName
    | NothingRequested
    | Expired
    | HasContextFreeActions
    | SameName
    | NotAuthorized
    | NotFound
    | WrongHash
    | NotRequested
    | NotGranted
    | DelayWithoutTimer
    | NotYetExpired
    | TooEarly

  const EMPTY: State := State(map[], map[], map[])

  predicate ExpiredAt(trx: Trx, now: nat) {
    trx.expiration < now / SECOND
  }

  // std::find_if: the first entry of the level, or the end.
  function Find(list: seq<Approval>, level: Level): (i: nat)
    ensures i <= |list| && forall j :: 0 <= j < i ==> list[j].level != level
    ensures i < |list| ==> list[i].level == level
  {
    if list == [] || list[0].level == level then 0 else 1 + Find(list[1..], level)
  }

  function Without(list: seq<Approval>, i: nat): seq<Approval>
    requires i < |list|
  {
    list[..i] + list[i + 1..]
  }

  predicate Live(invalidations: map<Name, nat>, a: Approval) {
    a.level.actor in invalidations ==> invalidations[a.level.actor] < a.time
  }

  // The levels that get_approvals_and_adjust_table counts, in order.
  function Counted(provided: seq<Approval>, invalidations: map<Name, nat>): seq<Level> {
    if provided == [] then []
    else
      var last := provided[|provided| - 1];
      Counted(provided[..|provided| - 1], invalidations) + if Live(invalidations, last) then [last.level] else []
  }

  function LevelsFor(s: State, key: Key): seq<Level> {
    if key in s.approvals then Counted(s.approvals[key].provided, s.invalidations) else []
  }

  function Fresh(levels: seq<Level>): (list: seq<Approval>)
    ensures |list| == |levels|
  {
    seq(|levels|, i requires 0 <= i < |levels| => Approval(levels[i], 0))
  }

  ghost function DoPropose(s: State, h: Host, key: Key, levels: seq<Level>, trx: Trx): Result<State, Error> {
    if key.name == 0 then Err(EmptyName)
    else if levels == [] then Err(NothingRequested)
    else if ExpiredAt(trx, h.now) then Err(Expired)
    else if trx.contextFree then Err(HasContextFreeActions)
    else if key in s.proposals then Err(SameName)
    else if !h.authorized(trx, levels) then Err(NotAuthorized)
    else if key in s.approvals then Err(SameName)
    else
      Ok(s.(proposals := s.proposals[key := Proposal(trx, Unset)],
            approvals := s.approvals[key := Approvals(Fresh(levels), [])]))
  }

  // The level's first requested entry becomes a provided one.
  function Provide(row: Approvals, level: Level, now: nat): Approvals
    requires Find(row.requested, level) < |row.requested|
  {
    Approvals(Without(row.requested, Find(row.requested, level)), row.provided + [Approval(level, now)])
  }

  function Revoke(row: Approvals, level: Level, now: nat): Approvals
    requires Find(row.provided, level) < |row.provided|
  {
    Approvals(row.requested + [Approval(level, now)], Without(row.provided, Find(row.provided, level)))
  }

  // The timer starts when an approval first completes the authorization.
  ghost function StartTimer(s: State, h: Host, key: Key): Result<State, Error>
    requires key in s.proposals
  {
    var p := s.proposals[key];
    match p.earliest
    case Absent => if p.trx.delaySec == 0 then Ok(s) else Err(DelayWithoutTimer)
    case Unset =>
      if h.authorized(p.trx, LevelsFor(s, key)) then
        Ok(s.(proposals := s.proposals[key := p.(earliest := Set(h.now + p.trx.delaySec * SECOND))]))
      else Ok(s)
    case Set(_) => Ok(s)
  }

  // Losing an approval that the authorization needs stops the timer.
  ghost function StopTimer(s: State, h: Host, key: Key): Result<State, Error>
    requires key in s.proposals
  {
    var p := s.proposals[key];
    match p.earliest
    case Absent => if p.trx.delaySec == 0 then Ok(s) else Err(DelayWithoutTimer)
    case Unset => Ok(s)
    case Set(_) =>
      if h.authorized(p.trx, LevelsFor(s, key)) then Ok(s)
      else Ok(s.(proposals := s.proposals[key := p.(earliest := Unset)]))
  }

  ghost function DoApprove(s: State, h: Host, key: Key, level: Level, hash: Option<nat>): Result<State, Error> {
    if key !in s.proposals then Err(NotFound)
    else if hash.Some? && h.sha256(s.proposals[key].trx) != hash.value then Err(WrongHash)
    else if key !in s.approvals then StartTimer(s, h, key)
    else if Find(s.approvals[key].requested, level) == |s.approvals[key].requested| then Err(NotRequested)
    else StartTimer(s.(approvals := s.approvals[key := Provide(s.approvals[key], level, h.now)]), h, key)
  }

  ghost function DoUnapprove(s: State, h: Host, key: Key, level: Level): Result<State, Error> {
    if key !in s.approvals then Err(NotFound)
    else if Find(s.approvals[key].provided, level) == |s.approvals[key].provided| then Err(NotGranted)
    else if key !in s.proposals then Err(NotFound)
    else StopTimer(s.(approvals := s.approvals[key := Revoke(s.approvals[key], level, h.now)]), h, key)
  }

  function DoCancel(s: State, now: nat, key: Key, canceler: Name): Result<State, Error> {
    if key !in s.proposals then Err(NotFound)
    else if canceler != key.proposer && !ExpiredAt(s.proposals[key].trx, now) then Err(NotYetExpired)
    else Ok(s.(proposals := s.proposals - {key}, approvals := s.approvals - {key}))
  }

  ghost function DoExec(s: State, h: Host, key: Key): Result<State, Error> {
    if key !in s.proposals then Err(NotFound)
    else
      var p := s.proposals[key];
      if ExpiredAt(p.trx, h.now) then Err(Expired)
      else if p.trx.contextFree then Err(HasContextFreeActions)
      else if !h.authorized(p.trx, LevelsFor(s, key)) then Err(NotAuthorized)
      else if p.earliest.Set? && p.earliest.time > h.now then Err(TooEarly)
      else if !p.earliest.Set? && p.trx.delaySec != 0 then Err(DelayWithoutTimer)
      else Ok(s.(proposals := s.proposals - {key}, approvals := s.approvals - {key}))
  }

  ghost function Apply(s: State, h: Host, a: Action): Result<State, Error> {
    match a
    case Propose(key, levels, trx) => DoPropose(s, h, key, levels, trx)
    case Approve(key, level, hash) => DoApprove(s, h, key, level, hash)
    case Unapprove(key, level) => DoUnapprove(s, h, key, level)
    case Cancel(key, canceler) => DoCancel(s, h.now, key, canceler)
    case Exec(key) => DoExec(s, h, key)
    case Invalidate(account) => Ok(s.(invalidations := s.invalidations[account := h.now]))
  }

  // ---- what is counted ----

  lemma {:induction false} CountedSound(provided: seq<Approval>, invalidations: map<Name, nat>, level: Level)
    requires level in Counted(provided, invalidations)
    ensures exists a :: a in provided && a.level == level && Live(invalidations, a)
  {
    var last := provided[|provided| - 1];
    if level in Counted(provided[..|provided| - 1], invalidations) {
      CountedSound(provided[..|provided| - 1], invalidations, level);
    } else {
      assert last.level == level && Live(invalidations, last);
    }
  }

  lemma {:induction false} CountedComplete(provided: seq<Approval>, invalidations: map<Name, nat>, a: Approval)
    requires a in provided && Live(invalidations, a)
    ensures a.level in Counted(provided, invalidations)
  {
    if a != provided[|provided| - 1] {
      assert a in provided[..|provided| - 1];
      CountedComplete(provided[..|provided| - 1], invalidations, a);
    }
  }

  ghost function Levels(list: seq<Approval>): seq<Level> {
    seq(|list|, i requires 0 <= i < |list| => list[i].level)
  }

  lemma WithoutLevels(list: seq<Approval>, i: nat)
    requires i < |list|
    ensures multiset(Levels(Without(list, i))) + multiset{list[i].level} == multiset(Levels(list))
  {
    var all := Levels(list);
    assert Levels(Without(list, i)) == all[..i] + all[i + 1..];
    assert all == all[..i] + [all[i]] + all[i + 1..];
  }

  // Every level the proposer asked for, whether provided by now or not.
  ghost function Asked(row: Approvals): multiset<Level> {
    multiset(Levels(row.requested)) + multiset(Levels(row.provided))
  }

  /** Approving and unapproving only move a level between the two lists. */
  lemma ProvideKeeps(row: Approvals, level: Level, now: nat)
    requires Find(row.requested, level) < |row.requested|
    ensures Asked(Provide(row, level, now)) == Asked(row)
  {
    WithoutLevels(row.requested, Find(row.requested, level));
    assert Levels(row.provided + [Approval(level, now)]) == Levels(row.provided) + [level];
  }

  lemma RevokeKeeps(row: Approvals, level: Level, now: nat)
    requires Find(row.provided, level) < |row.provided|
    ensures Asked(Revoke(row, level, now)) == Asked(row)
  {
    WithoutLevels(row.provided, Find(row.provided, level));
    assert Levels(row.requested + [Approval(level, now)]) == Levels(row.requested) + [level];
  }
}
