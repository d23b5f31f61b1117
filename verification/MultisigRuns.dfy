/** Histories of multisig actions: what an execution implies about everything that came before. */
module MultisigRuns {
  import opened Common
  import opened MultisigSpec

  datatype Step = Step(host: Host, action: Action)

  // Blocks do not go back in time.
  ghost predicate InOrder(steps: seq<Step>) {
    forall i, j :: 0 <= i < j < |steps| ==> steps[i].host.now <= steps[j].host.now
  }

  // The tables before step n; a failed action changes nothing.
  ghost function At(start: State, steps: seq<Step>, n: nat): State
    requires n <= |steps|
  {
    if n == 0 then start
    else
      match Apply(At(start, steps, n - 1), steps[n - 1].host, steps[n - 1].action)
      case Ok(t) => t
      case Err(_) => At(start, steps, n - 1)
  }

  ghost predicate Succeeds(start: State, steps: seq<Step>, n: nat) {
    n < |steps| && Apply(At(start, steps, n), steps[n].host, steps[n].action).Ok?
  }

  // Rows written before earliest_exec_time existed; a new deployment starts from EMPTY.
  ghost predicate Legacy(s: State) {
    && s.approvals.Keys <= s.proposals.Keys
    && forall k :: k in s.proposals ==> s.proposals[k].earliest == Absent
  }

  // ---- table domains ----

  ghost predicate Consistent(s: State) {
    && s.approvals.Keys <= s.proposals.Keys
    && forall k :: k in s.proposals && s.proposals[k].earliest != Absent ==> k in s.approvals
  }

  lemma ApplyConsistent(s: State, h: Host, a: Action)
    requires Consistent(s) && Apply(s, h, a).Ok?
    ensures Consistent(Apply(s, h, a).value)
    ensures forall k :: k in Apply(s, h, a).value.proposals && Apply(s, h, a).value.proposals[k].earliest == Absent ==>
              k in s.proposals && s.proposals[k].earliest == Absent
  {
    hide Find, Counted;
  }

  /** Proposals and approvals keep equal domains, from the empty tables on. */
  lemma {:induction false} EqualDomains(start: State, steps: seq<Step>, n: nat)
    requires n <= |steps| && Legacy(start)
    ensures Consistent(At(start, steps, n))
    ensures start == EMPTY ==>
              forall k :: k in At(start, steps, n).proposals ==> At(start, steps, n).proposals[k].earliest != Absent
    ensures start == EMPTY ==> At(start, steps, n).approvals.Keys == At(start, steps, n).proposals.Keys
  {
    if n > 0 {
      EqualDomains(start, steps, n - 1);
      var h, a := steps[n - 1].host, steps[n - 1].action;
      if Succeeds(start, steps, n - 1) {
        ApplyConsistent(At(start, steps, n - 1), h, a);
      }
    }
  }

  // ---- the latest proposal of a name ----

  ghost predicate Replaces(a: Action, key: Key) {
    (a.Propose? || a.Cancel? || a.Exec?) && a.key == key
  }

  // Step i proposed trx under the key, and nothing replaced or removed it before step n.
  ghost predicate ProposedAt(start: State, steps: seq<Step>, n: nat, key: Key, i: nat, trx: Trx) {
    && i < n <= |steps| && Succeeds(start, steps, i)
    && steps[i].action.Propose? && steps[i].action.key == key && steps[i].action.trx == trx
    && forall m :: i < m < n && Succeeds(start, steps, m) ==> !Replaces(steps[m].action, key)
  }

  lemma FreshLevels(levels: seq<Level>)
    ensures Levels(Fresh(levels)) == levels
  {}

  // What one action does to the rows of a key that it does not replace.
  lemma KeyEffect(s: State, h: Host, a: Action, key: Key)
    requires Consistent(s) && Apply(s, h, a).Ok? && key in s.proposals && !Replaces(a, key)
    ensures var t := Apply(s, h, a).value;
            && key in t.proposals && t.proposals[key].trx == s.proposals[key].trx
            && (key in t.approvals <==> key in s.approvals)
            && (key in s.approvals ==> Asked(t.approvals[key]) == Asked(s.approvals[key]))
            && (t.proposals[key].earliest == Absent <==> s.proposals[key].earliest == Absent)
  {
    hide Asked, Find, Counted, Without;
    if a.Approve? && a.key == key && key in s.approvals {
      ProvideKeeps(s.approvals[key], a.level, h.now);
    } else if a.Unapprove? && a.key == key {
      RevokeKeeps(s.approvals[key], a.level, h.now);
    }
  }

  lemma OnlyProposeCreates(s: State, h: Host, a: Action, key: Key)
    requires Apply(s, h, a).Ok? && key in Apply(s, h, a).value.proposals
    ensures key in s.proposals || (a.Propose? && a.key == key)
    ensures key in s.proposals ==> !Replaces(a, key)
  {}

  // Step i proposed what the tables hold under the key before step n.
  ghost predicate Origin(start: State, steps: seq<Step>, n: nat, key: Key, i: nat)
    requires n <= |steps|
  {
    var s := At(start, steps, n);
    && key in s.proposals && key in s.approvals
    && ProposedAt(start, steps, n, key, i, s.proposals[key].trx)
    && Asked(s.approvals[key]) == multiset(steps[i].action.levels)
  }

  lemma OriginStep(start: State, steps: seq<Step>, n: nat, key: Key, i: nat)
    requires 0 < n <= |steps| && Consistent(At(start, steps, n - 1)) && Origin(start, steps, n - 1, key, i)
    requires key in At(start, steps, n).proposals
    ensures Origin(start, steps, n, key, i)
  {
    hide Asked;
    var s, h, a := At(start, steps, n - 1), steps[n - 1].host, steps[n - 1].action;
    if Succeeds(start, steps, n - 1) {
      OnlyProposeCreates(s, h, a, key);
      KeyEffect(s, h, a, key);
    }
  }

  /**
   * Every proposal in the table goes back to one propose action, and the levels requested there are
   * exactly those now requested or provided, with multiplicity.
   */
  lemma {:induction false} ProposalHistory(start: State, steps: seq<Step>, n: nat, key: Key)
    requires n <= |steps| && Legacy(start)
    requires key in At(start, steps, n).proposals && At(start, steps, n).proposals[key].earliest != Absent
    ensures exists i: nat :: Origin(start, steps, n, key, i)
  {
    hide Asked;
    assert n > 0;
    var s, h, a := At(start, steps, n - 1), steps[n - 1].host, steps[n - 1].action;
    EqualDomains(start, steps, n - 1);
    if Succeeds(start, steps, n - 1) {
      OnlyProposeCreates(s, h, a, key);
      if key in s.proposals {
        KeyEffect(s, h, a, key);
      }
    }
    if key in s.proposals {
      ProposalHistory(start, steps, n - 1, key);
      var i: nat :| Origin(start, steps, n - 1, key, i);
      OriginStep(start, steps, n, key, i);
    } else {
      FreshLevels(a.levels);
      AskedAtFirst(a.levels);
      assert Origin(start, steps, n, key, n - 1);
    }
  }

  lemma AskedAtFirst(levels: seq<Level>)
    ensures Asked(Approvals(Fresh(levels), [])) == multiset(levels)
  {
    FreshLevels(levels);
  }

  // ---- the delay ----

  // The counted approvals authorize the key's transaction, as the host sees it.
  ghost predicate AuthorizedAt(start: State, steps: seq<Step>, n: nat, h: Host, key: Key)
    requires n <= |steps|
  {
    var s := At(start, steps, n);
    key in s.proposals && h.authorized(s.proposals[key].trx, LevelsFor(s, key))
  }

  /**
   * Step j is an approval that found the transaction authorized, and every successful unapproval
   * between j and n left it authorized.
   */
  ghost predicate TimerRuns(start: State, steps: seq<Step>, n: nat, key: Key, j: nat) {
    && j < n <= |steps| && Succeeds(start, steps, j)
    && steps[j].action.Approve? && steps[j].action.key == key
    && AuthorizedAt(start, steps, j + 1, steps[j].host, key)
    && forall m ::
         j < m < n && Succeeds(start, steps, m) && steps[m].action.Unapprove? && steps[m].action.key == key ==>
         AuthorizedAt(start, steps, m + 1, steps[m].host, key)
  }

  ghost predicate DelayObserved(start: State, steps: seq<Step>, n: nat, key: Key, i: nat, j: nat)
    requires n <= |steps|
  {
    && i < j && Origin(start, steps, n, key, i) && TimerRuns(start, steps, n, key, j)
    && At(start, steps, n).proposals[key].earliest
       == Set(steps[j].host.now + At(start, steps, n).proposals[key].trx.delaySec * SECOND)
  }

  // How one action moves the timer.
  lemma TimerEffect(s: State, h: Host, a: Action, key: Key)
    requires Consistent(s) && Apply(s, h, a).Ok? && key in s.proposals && !Replaces(a, key)
    requires Apply(s, h, a).value.proposals[key].earliest.Set?
    ensures var t := Apply(s, h, a).value;
            if s.proposals[key].earliest.Set? then
              && t.proposals[key].earliest == s.proposals[key].earliest
              && (a.Unapprove? && a.key == key ==> h.authorized(t.proposals[key].trx, LevelsFor(t, key)))
            else
              && a.Approve? && a.key == key
              && t.proposals[key].earliest == Set(h.now + t.proposals[key].trx.delaySec * SECOND)
              && h.authorized(t.proposals[key].trx, LevelsFor(t, key))
  {
    hide Find, Counted, Provide, Revoke;
  }

  lemma OriginBefore(start: State, steps: seq<Step>, n: nat, key: Key, i: nat)
    requires n <= |steps| && Origin(start, steps, n, key, i)
    ensures key in At(start, steps, n).proposals
    ensures ProposedAt(start, steps, n, key, i, At(start, steps, n).proposals[key].trx)
  {}

  ghost predicate Running(start: State, steps: seq<Step>, n: nat, key: Key)
    requires n <= |steps|
  {
    key in At(start, steps, n).proposals && At(start, steps, n).proposals[key].earliest.Set?
  }

  lemma DelayStep(start: State, steps: seq<Step>, n: nat, key: Key, i: nat, j: nat)
    requires 0 < n <= |steps| && Consistent(At(start, steps, n - 1)) && Running(start, steps, n, key)
    requires DelayObserved(start, steps, n - 1, key, i, j)
    ensures DelayObserved(start, steps, n, key, i, j)
  {
    hide Origin, Apply, LevelsFor;
    OriginStep(start, steps, n, key, i);
    OriginBefore(start, steps, n - 1, key, i);
    var s, h, a := At(start, steps, n - 1), steps[n - 1].host, steps[n - 1].action;
    if Succeeds(start, steps, n - 1) {
      OnlyProposeCreates(s, h, a, key);
      TimerEffect(s, h, a, key);
      KeyEffect(s, h, a, key);
    }
  }

  lemma DelayStart(start: State, steps: seq<Step>, n: nat, key: Key, i: nat)
    requires 0 < n <= |steps| && Consistent(At(start, steps, n - 1))
    requires Running(start, steps, n, key) && !Running(start, steps, n - 1, key)
    requires Origin(start, steps, n - 1, key, i)
    ensures DelayObserved(start, steps, n, key, i, n - 1)
  {
    hide Origin, Apply, LevelsFor;
    OriginStep(start, steps, n, key, i);
    OriginBefore(start, steps, n - 1, key, i);
    var s, h, a := At(start, steps, n - 1), steps[n - 1].host, steps[n - 1].action;
    OnlyProposeCreates(s, h, a, key);
    TimerEffect(s, h, a, key);
  }

  // A proposal is created with its timer unset.
  lemma RunsLater(start: State, steps: seq<Step>, n: nat, key: Key)
    requires 0 < n <= |steps| && Consistent(At(start, steps, n - 1)) && Running(start, steps, n, key)
    ensures key in At(start, steps, n - 1).proposals
    ensures At(start, steps, n - 1).proposals[key].earliest != Absent
  {
    hide Find, Counted;
    var s, h, a := At(start, steps, n - 1), steps[n - 1].host, steps[n - 1].action;
    if Succeeds(start, steps, n - 1) {
      OnlyProposeCreates(s, h, a, key);
    }
  }

  /** A running timer was started by an approval after the latest propose, and nothing since undid it. */
  lemma {:induction false} TimerHistory(start: State, steps: seq<Step>, n: nat, key: Key)
    requires n <= |steps| && Legacy(start) && Running(start, steps, n, key)
    ensures exists i: nat, j: nat :: DelayObserved(start, steps, n, key, i, j)
  {
    hide DelayObserved, Origin, Apply, Consistent;
    assert n > 0;
    EqualDomains(start, steps, n - 1);
    RunsLater(start, steps, n, key);
    if Running(start, steps, n - 1, key) {
      TimerHistory(start, steps, n - 1, key);
      var i: nat, j: nat :| DelayObserved(start, steps, n - 1, key, i, j);
      DelayStep(start, steps, n, key, i, j);
    } else {
      ProposalHistory(start, steps, n - 1, key);
      var i: nat :| Origin(start, steps, n - 1, key, i);
      DelayStart(start, steps, n, key, i);
    }
  }

  /**
   * Delay safety: whatever is executed with a delay was authorized by an approval at least that long
   * ago, after the latest propose, and every later unapproval left it authorized; and it is authorized now.
   */
  lemma ExecutionWaited(start: State, steps: seq<Step>, n: nat)
    requires Legacy(start) && Succeeds(start, steps, n) && steps[n].action.Exec?
    requires At(start, steps, n).proposals[steps[n].action.key].trx.delaySec > 0
    ensures var key := steps[n].action.key;
            var trx := At(start, steps, n).proposals[key].trx;
            && AuthorizedAt(start, steps, n, steps[n].host, key)
            && exists i: nat, j: nat ::
                 && i < j && ProposedAt(start, steps, n, key, i, trx) && TimerRuns(start, steps, n, key, j)
                 && steps[j].host.now + trx.delaySec * SECOND <= steps[n].host.now
  {
    hide Asked;
    var key := steps[n].action.key;
    TimerHistory(start, steps, n, key);
    var i: nat, j: nat :| DelayObserved(start, steps, n, key, i, j);
  }

  // ---- what each action asks for and leaves ----

  // Every row but those of the key is as it was.
  ghost predicate OthersSame(s: State, t: State, key: Key) {
    && t.proposals - {key} == s.proposals - {key} && t.approvals - {key} == s.approvals - {key}
    && t.invalidations == s.invalidations
  }

  ghost predicate Gone(s: State, t: State, key: Key) {
    OthersSame(s, t, key) && key !in t.proposals && key !in t.approvals
  }

  ghost predicate Listed(list: seq<Approval>, level: Level) {
    exists a :: a in list && a.level == level
  }

  lemma FindListed(list: seq<Approval>, level: Level)
    ensures Find(list, level) < |list| <==> Listed(list, level)
  {
    var i := Find(list, level);
    if i < |list| {
      assert list[i] in list;
    }
  }

  /**
   * An execution succeeds exactly when the transaction is authorized at that moment by the counted
   * approvals, whatever its delay, has not expired, and its timer has run out or was never needed; both
   * rows disappear, so it happens once.
   */
  lemma ExecutesExactly(start: State, steps: seq<Step>, n: nat)
    requires n < |steps| && steps[n].action.Exec?
    ensures var s, h, key := At(start, steps, n), steps[n].host, steps[n].action.key;
            Succeeds(start, steps, n) <==>
              && AuthorizedAt(start, steps, n, h, key)
              && h.now / 1_000_000 <= s.proposals[key].trx.expiration && !s.proposals[key].trx.contextFree
              && (match s.proposals[key].earliest
                  case Set(time) => time <= h.now
                  case _ => s.proposals[key].trx.delaySec == 0)
    ensures Succeeds(start, steps, n) ==> Gone(At(start, steps, n), At(start, steps, n + 1), steps[n].action.key)
  {
    hide LevelsFor;
  }

  /** Nobody but the proposer cancels a proposal before it expires; anybody may afterwards. */
  lemma CancelsExactly(start: State, steps: seq<Step>, n: nat)
    requires n < |steps| && steps[n].action.Cancel?
    ensures var s, key := At(start, steps, n), steps[n].action.key;
            Succeeds(start, steps, n) <==>
              && key in s.proposals
              && (steps[n].action.canceler == key.proposer
                  || s.proposals[key].trx.expiration < steps[n].host.now / 1_000_000)
    ensures Succeeds(start, steps, n) ==> Gone(At(start, steps, n), At(start, steps, n + 1), steps[n].action.key)
  {}

  /**
   * A proposal needs a new, nonempty name and requested levels that can authorize its unexpired
   * transaction; it starts with all of them requested, none provided and no timer.
   */
  lemma ProposesExactly(start: State, steps: seq<Step>, n: nat)
    requires n < |steps| && steps[n].action.Propose? && Consistent(At(start, steps, n))
    ensures var s, h, a := At(start, steps, n), steps[n].host, steps[n].action;
            Succeeds(start, steps, n) <==>
              && a.key !in s.proposals && a.key.name != 0 && a.levels != []
              && h.now / 1_000_000 <= a.trx.expiration && !a.trx.contextFree && h.authorized(a.trx, a.levels)
    ensures Succeeds(start, steps, n) ==>
              var t, a := At(start, steps, n + 1), steps[n].action;
              && OthersSame(At(start, steps, n), t, a.key)
              && a.key in t.proposals && t.proposals[a.key] == Proposal(a.trx, Unset)
              && a.key in t.approvals && t.approvals[a.key].provided == []
              && Levels(t.approvals[a.key].requested) == a.levels
  {
    FreshLevels(steps[n].action.levels);
  }

  /**
   * An approval needs the proposal, its hash if one is given, and a request of that level. It is recorded
   * with the current time, takes one request away, and starts the timer exactly if none is running and
   * the transaction is now authorized. Only an old row without approvals is left as it is.
   */
  lemma ApprovesExactly(start: State, steps: seq<Step>, n: nat)
    requires n < |steps| && steps[n].action.Approve? && Consistent(At(start, steps, n))
    ensures var s, h, a := At(start, steps, n), steps[n].host, steps[n].action;
            Succeeds(start, steps, n) <==>
              && a.key in s.proposals
              && (a.key in s.approvals ==> Listed(s.approvals[a.key].requested, a.level))
              && (a.hash == None || a.hash == Some(h.sha256(s.proposals[a.key].trx)))
              && (s.proposals[a.key].earliest == Absent ==> s.proposals[a.key].trx.delaySec == 0)
    ensures Succeeds(start, steps, n) ==>
              var s, t, a := At(start, steps, n), At(start, steps, n + 1), steps[n].action;
              if a.key in s.approvals then Approved(s, t, steps[n].host, a.key, a.level) else t == s
  {
    hide LevelsFor, Approved, Listed;
    var s, a := At(start, steps, n), steps[n].action;
    if a.key in s.approvals {
      FindListed(s.approvals[a.key].requested, a.level);
      if Succeeds(start, steps, n) {
        ApprovedEffect(s, steps[n].host, a.key, a.level, a.hash);
      }
    }
  }

  lemma ApprovedEffect(s: State, h: Host, key: Key, level: Level, hash: Option<nat>)
    requires key in s.approvals && DoApprove(s, h, key, level, hash).Ok?
    ensures Approved(s, DoApprove(s, h, key, level, hash).value, h, key, level)
  {
    hide Counted, Levels, Without, Find;
    var t, row := DoApprove(s, h, key, level, hash).value, s.approvals[key];
    WithoutLevels(row.requested, Find(row.requested, level));
    FindIsLevel(row.requested, level);
    assert t.proposals - {key} == s.proposals - {key} && t.approvals - {key} == s.approvals - {key};
  }

  lemma FindIsLevel(list: seq<Approval>, level: Level)
    requires Find(list, level) < |list|
    ensures list[Find(list, level)].level == level
  {}

  ghost predicate Approved(s: State, t: State, h: Host, key: Key, level: Level) {
    && OthersSame(s, t, key) && key in s.proposals && key in t.proposals && key in s.approvals && key in t.approvals
    && t.approvals[key].provided == s.approvals[key].provided + [Approval(level, h.now)]
    && multiset(Levels(t.approvals[key].requested)) + multiset{level} == multiset(Levels(s.approvals[key].requested))
    && var p := s.proposals[key];
       t.proposals[key] ==
         if p.earliest == Unset && h.authorized(p.trx, LevelsFor(t, key))
         then p.(earliest := Set(h.now + p.trx.delaySec * 1_000_000)) else p
  }

  /**
   * An unapproval needs an approval of that level. It takes one away, requests the level again, and stops
   * the timer exactly if the transaction is no longer authorized.
   */
  lemma UnapprovesExactly(start: State, steps: seq<Step>, n: nat)
    requires n < |steps| && steps[n].action.Unapprove?
    ensures var s, a := At(start, steps, n), steps[n].action;
            Succeeds(start, steps, n) <==>
              && a.key in s.approvals && Listed(s.approvals[a.key].provided, a.level) && a.key in s.proposals
              && (s.proposals[a.key].earliest == Absent ==> s.proposals[a.key].trx.delaySec == 0)
    ensures Succeeds(start, steps, n) ==>
              Unapproved(At(start, steps, n), At(start, steps, n + 1), steps[n].host, steps[n].action.key,
                         steps[n].action.level)
  {
    hide LevelsFor, Unapproved, Listed;
    var s, a := At(start, steps, n), steps[n].action;
    if a.key in s.approvals {
      FindListed(s.approvals[a.key].provided, a.level);
      if Succeeds(start, steps, n) {
        UnapprovedEffect(s, steps[n].host, a.key, a.level);
      }
    }
  }

  lemma UnapprovedEffect(s: State, h: Host, key: Key, level: Level)
    requires DoUnapprove(s, h, key, level).Ok?
    ensures Unapproved(s, DoUnapprove(s, h, key, level).value, h, key, level)
  {
    hide Counted, Find, Levels;
    var t, row := DoUnapprove(s, h, key, level).value, s.approvals[key];
    WithoutLevels(row.provided, Find(row.provided, level));
    FindIsLevel(row.provided, level);
    LevelsAppend(row.requested, Approval(level, h.now));
    assert t.proposals - {key} == s.proposals - {key} && t.approvals - {key} == s.approvals - {key};
  }

  lemma LevelsAppend(list: seq<Approval>, a: Approval)
    ensures Levels(list + [a]) == Levels(list) + [a.level]
  {}

  ghost predicate Unapproved(s: State, t: State, h: Host, key: Key, level: Level) {
    && OthersSame(s, t, key) && key in s.proposals && key in t.proposals && key in s.approvals && key in t.approvals
    && Levels(t.approvals[key].requested) == Levels(s.approvals[key].requested) + [level]
    && multiset(Levels(t.approvals[key].provided)) + multiset{level} == multiset(Levels(s.approvals[key].provided))
    && (forall a :: a in t.approvals[key].provided ==> a in s.approvals[key].provided)
    && var p := s.proposals[key];
       t.proposals[key] ==
         if p.earliest.Set? && !h.authorized(p.trx, LevelsFor(t, key)) then p.(earliest := Unset) else p
  }

  // ---- which approvals are counted ----

  // The latest invalidation of every account, none before its time.
  lemma {:induction false} InvalidationHistory(start: State, steps: seq<Step>, n: nat, account: Name)
    requires n <= |steps| && InOrder(steps)
    ensures forall m :: 0 <= m < n && steps[m].action == Invalidate(account) ==>
              account in At(start, steps, n).invalidations
                && steps[m].host.now <= At(start, steps, n).invalidations[account]
    ensures account in At(start, steps, n).invalidations ==>
              || (account in start.invalidations
                  && At(start, steps, n).invalidations[account] == start.invalidations[account])
              || exists m :: 0 <= m < n && steps[m].action == Invalidate(account)
                   && At(start, steps, n).invalidations[account] == steps[m].host.now
  {
    hide DoPropose, DoApprove, DoUnapprove, DoCancel, DoExec;
    if n > 0 {
      InvalidationHistory(start, steps, n - 1, account);
      if Succeeds(start, steps, n - 1) {
        InvalidationEffect(At(start, steps, n - 1), steps[n - 1].host, steps[n - 1].action);
      }
    }
  }

  lemma InvalidationEffect(s: State, h: Host, a: Action)
    requires Apply(s, h, a).Ok?
    ensures Apply(s, h, a).value.invalidations ==
              if a.Invalidate? then s.invalidations[a.account := h.now] else s.invalidations
  {
    hide Find, Counted;
  }

  // Step m approved with the level after the latest propose, and every invalidation by the level's
  // actor, before or after, is strictly older.
  ghost predicate Stands(start: State, steps: seq<Step>, n: nat, key: Key, level: Level, m: nat) {
    && m < n <= |steps| && Succeeds(start, steps, m)
    && steps[m].action.Approve? && steps[m].action.key == key && steps[m].action.level == level
    && forall q :: 0 <= q < n && steps[q].action == Invalidate(level.actor) ==> steps[q].host.now < steps[m].host.now
  }

  ghost predicate Provided(s: State, key: Key, a: Approval) {
    key in s.approvals && a in s.approvals[key].provided
  }

  // Where a provided approval comes from.
  lemma ProvidedEffect(s: State, h: Host, act: Action, key: Key, a: Approval)
    requires Consistent(s) && Apply(s, h, act).Ok? && Provided(Apply(s, h, act).value, key, a)
    ensures Provided(s, key, a) || (act.Approve? && act.key == key && a == Approval(act.level, h.now))
    ensures act.Propose? ==> act.key != key
  {
    hide Find, Counted, LevelsFor;
  }

  lemma {:induction false} ProvidedHistory(start: State, steps: seq<Step>, n: nat, key: Key, i: nat, a: Approval)
    requires n <= |steps| && Legacy(start) && Origin(start, steps, n, key, i)
    requires Provided(At(start, steps, n), key, a)
    ensures exists m :: i < m < n && Succeeds(start, steps, m) && steps[m].action.Approve? && steps[m].action.key == key
              && a == Approval(steps[m].action.level, steps[m].host.now)
  {
    hide Asked, Apply;
    var s, h, act := At(start, steps, n - 1), steps[n - 1].host, steps[n - 1].action;
    EqualDomains(start, steps, n - 1);
    if Succeeds(start, steps, n - 1) {
      ProvidedEffect(s, h, act, key, a);
      if Provided(s, key, a) {
        OriginBack(start, steps, n, key, i);
        ProvidedHistory(start, steps, n - 1, key, i, a);
      }
    } else {
      OriginBack(start, steps, n, key, i);
      ProvidedHistory(start, steps, n - 1, key, i, a);
    }
  }

  lemma OriginBack(start: State, steps: seq<Step>, n: nat, key: Key, i: nat)
    requires 0 < n <= |steps| && Consistent(At(start, steps, n - 1)) && Origin(start, steps, n, key, i)
    requires i != n - 1
    ensures Origin(start, steps, n - 1, key, i)
  {
    hide Asked;
    var s, h, a := At(start, steps, n - 1), steps[n - 1].host, steps[n - 1].action;
    if Succeeds(start, steps, n - 1) {
      OnlyProposeCreates(s, h, a, key);
      KeyEffect(s, h, a, key);
    }
  }

  /** A counted level approved after the latest propose and strictly after its actor's last invalidation. */
  lemma CountedStands(start: State, steps: seq<Step>, n: nat, key: Key, i: nat, level: Level)
    requires n <= |steps| && Legacy(start) && InOrder(steps) && Origin(start, steps, n, key, i)
    requires level in LevelsFor(At(start, steps, n), key)
    ensures exists m :: i < m && Stands(start, steps, n, key, level, m)
  {
    var s := At(start, steps, n);
    CountedSound(s.approvals[key].provided, s.invalidations, level);
    var a :| a in s.approvals[key].provided && a.level == level && Live(s.invalidations, a);
    ProvidedHistory(start, steps, n, key, i, a);
    InvalidationHistory(start, steps, n, level.actor);
    var m :| i < m < n && Succeeds(start, steps, m) && steps[m].action.Approve? && steps[m].action.key == key
             && a == Approval(steps[m].action.level, steps[m].host.now);
    assert Stands(start, steps, n, key, level, m);
  }

  // Nothing between m and n takes the approval back.
  ghost predicate NotTakenBack(start: State, steps: seq<Step>, n: nat, key: Key, level: Level, m: nat)
    requires n <= |steps|
  {
    forall q :: m < q < n && Succeeds(start, steps, q) ==>
      && !Replaces(steps[q].action, key)
      && !(steps[q].action.Unapprove? && steps[q].action.key == key && steps[q].action.level == level)
  }

  lemma WithoutOther(list: seq<Approval>, i: nat, a: Approval)
    requires i < |list| && a in list && list[i] != a
    ensures a in Without(list, i)
  {
    var k :| 0 <= k < |list| && list[k] == a;
    assert Without(list, i)[if k < i then k else k - 1] == a;
  }

  lemma ProvidedStays(s: State, h: Host, act: Action, key: Key, a: Approval)
    requires Consistent(s) && Apply(s, h, act).Ok? && Provided(s, key, a) && !Replaces(act, key)
    requires !(act.Unapprove? && act.key == key && act.level == a.level)
    ensures Provided(Apply(s, h, act).value, key, a)
  {
    hide Counted, LevelsFor, Without;
    if act.Unapprove? && act.key == key {
      WithoutOther(s.approvals[key].provided, Find(s.approvals[key].provided, act.level), a);
    }
  }

  lemma ApproveProvides(s: State, h: Host, act: Action)
    requires Apply(s, h, act).Ok? && act.Approve? && act.key in s.approvals
    ensures Provided(Apply(s, h, act).value, act.key, Approval(act.level, h.now))
  {
    hide Find, Counted;
    var row := Provide(s.approvals[act.key], act.level, h.now);
    assert row.provided[|row.provided| - 1] == Approval(act.level, h.now);
  }

  lemma {:induction false} ProvidedLater(start: State, steps: seq<Step>, n: nat, key: Key, level: Level, m: nat)
    requires m < n <= |steps| && Legacy(start) && Succeeds(start, steps, m)
    requires steps[m].action.Approve? && steps[m].action.key == key && steps[m].action.level == level
    requires key in At(start, steps, m).approvals
    requires NotTakenBack(start, steps, n, key, level, m)
    ensures Provided(At(start, steps, n), key, Approval(level, steps[m].host.now))
  {
    hide Apply, Provided, Consistent;
    EqualDomains(start, steps, n - 1);
    if m == n - 1 {
      ApproveProvides(At(start, steps, m), steps[m].host, steps[m].action);
    } else {
      ProvidedLater(start, steps, n - 1, key, level, m);
      if Succeeds(start, steps, n - 1) {
        ProvidedStays(At(start, steps, n - 1), steps[n - 1].host, steps[n - 1].action, key,
                      Approval(level, steps[m].host.now));
      }
    }
  }

  /** Conversely, an approval that stands and was not taken back is counted. */
  lemma StandingCounted(start: State, steps: seq<Step>, n: nat, key: Key, level: Level, m: nat)
    requires n <= |steps| && Legacy(start) && InOrder(steps) && Stands(start, steps, n, key, level, m)
    requires key in At(start, steps, m).approvals && NotTakenBack(start, steps, n, key, level, m)
    requires level.actor in start.invalidations ==> start.invalidations[level.actor] < steps[m].host.now
    ensures level in LevelsFor(At(start, steps, n), key)
  {
    var s := At(start, steps, n);
    ProvidedLater(start, steps, n, key, level, m);
    InvalidationHistory(start, steps, n, level.actor);
    CountedComplete(s.approvals[key].provided, s.invalidations, Approval(level, steps[m].host.now));
  }

  // ---- when the authorization lasts for the whole delay ----

  ghost predicate Enough(s: State, key: Key, f: (Trx, seq<Level>) -> bool) {
    key in s.proposals && f(s.proposals[key].trx, LevelsFor(s, key))
  }

  // More approvals never harm.
  ghost predicate Monotone(f: (Trx, seq<Level>) -> bool) {
    forall trx, levels, x :: f(trx, levels) ==> f(trx, levels + [x])
  }

  lemma EnoughStep(s: State, h: Host, a: Action, key: Key, f: (Trx, seq<Level>) -> bool)
    requires Consistent(s) && Apply(s, h, a).Ok? && Enough(s, key, f) && Monotone(f)
    requires !Replaces(a, key) && !a.Invalidate?
    requires a.Unapprove? && a.key == key ==> Enough(Apply(s, h, a).value, key, f)
    ensures Enough(Apply(s, h, a).value, key, f)
  {
    hide Monotone, LevelsFor;
    KeyEffect(s, h, a, key);
    if !(a.Unapprove? && a.key == key) {
      LevelsEffect(s, h, a, key);
      MoreEnough(s, Apply(s, h, a).value, a, key, f);
    }
  }

  // Unless it unapproves, an action at most adds one counted level.
  lemma LevelsEffect(s: State, h: Host, a: Action, key: Key)
    requires Consistent(s) && Apply(s, h, a).Ok? && key in s.proposals
    requires !Replaces(a, key) && !a.Invalidate? && !(a.Unapprove? && a.key == key)
    ensures || LevelsFor(Apply(s, h, a).value, key) == LevelsFor(s, key)
            || (a.Approve? && LevelsFor(Apply(s, h, a).value, key) == LevelsFor(s, key) + [a.level])
  {
    hide Find, Without;
    InvalidationEffect(s, h, a);
    if a.Approve? && a.key == key && key in s.approvals {
      CountedAppend(s.approvals[key].provided, s.invalidations, Approval(a.level, h.now));
    }
  }

  lemma MoreEnough(s: State, t: State, a: Action, key: Key, f: (Trx, seq<Level>) -> bool)
    requires Enough(s, key, f) && Monotone(f)
    requires key in t.proposals && t.proposals[key].trx == s.proposals[key].trx
    requires || LevelsFor(t, key) == LevelsFor(s, key)
             || (a.Approve? && LevelsFor(t, key) == LevelsFor(s, key) + [a.level])
    ensures Enough(t, key, f)
  {
    hide LevelsFor;
  }

  lemma CountedAppend(provided: seq<Approval>, invalidations: map<Name, nat>, a: Approval)
    ensures Counted(provided + [a], invalidations)
         == Counted(provided, invalidations) + if Live(invalidations, a) then [a.level] else []
  {
    assert (provided + [a])[..|provided|] == provided;
  }

  // The levels that an invalidation by the account leaves.
  ghost function Others(levels: seq<Level>, account: Name): seq<Level> {
    if levels == [] then []
    else
      var last := levels[|levels| - 1];
      Others(levels[..|levels| - 1], account) + if last.actor == account then [] else [last]
  }

  lemma OthersAppend(levels: seq<Level>, x: Level, account: Name)
    ensures Others(levels + [x], account) == Others(levels, account) + if x.actor == account then [] else [x]
  {
    assert (levels + [x])[..|levels|] == levels;
  }

  // Invalidating an account takes exactly its own levels out of the count.
  lemma {:induction false} CountedWithout(provided: seq<Approval>, invalidations: map<Name, nat>, account: Name,
                                          now: nat)
    requires forall a :: a in provided ==> a.time <= now
    ensures Counted(provided, invalidations[account := now]) == Others(Counted(provided, invalidations), account)
  {
    if provided != [] {
      var init, last := provided[..|provided| - 1], provided[|provided| - 1];
      CountedWithout(init, invalidations, account, now);
      assert last in provided && last.time <= now;
      var was := Counted(init, invalidations);
      if Live(invalidations, last) {
        OthersAppend(was, last.level, account);
        assert Live(invalidations[account := now], last) <==> last.level.actor != account;
      } else {
        assert !Live(invalidations[account := now], last);
        assert was + [] == was && Others(was, account) + [] == Others(was, account);
      }
    }
  }

  // A condition on the tables before the account invalidates: the remaining approvals suffice.
  ghost predicate EnoughOthers(s: State, key: Key, account: Name, f: (Trx, seq<Level>) -> bool) {
    key in s.proposals && f(s.proposals[key].trx, Others(LevelsFor(s, key), account))
  }

  lemma InvalidationStep(s: State, h: Host, key: Key, account: Name, f: (Trx, seq<Level>) -> bool)
    requires key in s.approvals && forall a :: a in s.approvals[key].provided ==> a.time <= h.now
    ensures Enough(Apply(s, h, Invalidate(account)).value, key, f) <==> EnoughOthers(s, key, account, f)
  {
    CountedWithout(s.approvals[key].provided, s.invalidations, account, h.now);
  }

  lemma {:induction false} OriginAt(start: State, steps: seq<Step>, n: nat, key: Key, i: nat, m: nat)
    requires i < m <= n <= |steps| && Legacy(start) && Origin(start, steps, n, key, i)
    ensures Origin(start, steps, m, key, i)
    decreases n - m
  {
    hide Origin, Apply, Consistent;
    if m < n {
      OriginAt(start, steps, n, key, i, m + 1);
      EqualDomains(start, steps, m);
      OriginBack(start, steps, m + 1, key, i);
    }
  }

  // What an invalidation does to the authorization, told from the tables before it.
  lemma InvalidationEnough(start: State, steps: seq<Step>, n: nat, key: Key, i: nat, q: nat,
                           f: (Trx, seq<Level>) -> bool)
    requires n <= |steps| && Legacy(start) && InOrder(steps) && Origin(start, steps, n, key, i)
    requires i < q < n && steps[q].action.Invalidate?
    ensures Enough(At(start, steps, q + 1), key, f)
       <==> EnoughOthers(At(start, steps, q), key, steps[q].action.account, f)
  {
    hide Enough, EnoughOthers, Asked;
    OriginAt(start, steps, n, key, i, q);
    var s := At(start, steps, q);
    forall a | a in s.approvals[key].provided ensures a.time <= steps[q].host.now {
      assert Provided(s, key, a);
      ProvidedHistory(start, steps, q, key, i, a);
    }
    InvalidationStep(s, steps[q].host, key, steps[q].action.account, f);
  }

  lemma {:induction false} EnoughThrough(start: State, steps: seq<Step>, n: nat, key: Key, j: nat, m: nat,
                                         f: (Trx, seq<Level>) -> bool)
    requires Legacy(start) && TimerRuns(start, steps, n, key, j) && j < m <= n && Monotone(f)
    requires forall q :: j <= q < n ==> steps[q].host.authorized == f
    requires forall q :: j < q < n && Succeeds(start, steps, q) ==> !Replaces(steps[q].action, key)
    requires forall q :: j < q < n && steps[q].action.Invalidate? ==> Enough(At(start, steps, q + 1), key, f)
    ensures Enough(At(start, steps, m), key, f)
  {
    hide Apply, LevelsFor, Monotone, Consistent;
    if m > j + 1 {
      EnoughThrough(start, steps, n, key, j, m - 1, f);
      EqualDomains(start, steps, m - 1);
      if Succeeds(start, steps, m - 1) && !steps[m - 1].action.Invalidate? {
        EnoughStep(At(start, steps, m - 1), steps[m - 1].host, steps[m - 1].action, key, f);
      }
    }
  }

  // Authorized in every state from step j up to step n.
  ghost predicate EnoughDuring(start: State, steps: seq<Step>, n: nat, key: Key, j: nat, f: (Trx, seq<Level>) -> bool)
    requires n <= |steps|
  {
    forall m :: j < m <= n ==> Enough(At(start, steps, m), key, f)
  }

  // Whoever invalidates between steps j and n is not needed: the approvals of the others suffice.
  ghost predicate NoneNeeded(start: State, steps: seq<Step>, n: nat, key: Key, j: nat, f: (Trx, seq<Level>) -> bool)
    requires n <= |steps|
  {
    forall q :: j < q < n && steps[q].action.Invalidate? ==>
      EnoughOthers(At(start, steps, q), key, steps[q].action.account, f)
  }

  lemma NoneNeededAfter(start: State, steps: seq<Step>, n: nat, key: Key, i: nat, j: nat, f: (Trx, seq<Level>) -> bool)
    requires n <= |steps| && Legacy(start) && InOrder(steps) && i < j && Origin(start, steps, n, key, i)
    ensures NoneNeeded(start, steps, n, key, j, f)
       <==> (forall q :: j < q < n && steps[q].action.Invalidate? ==> Enough(At(start, steps, q + 1), key, f))
  {
    hide Enough, EnoughOthers, Origin, Legacy, InOrder, At;
    forall q | j < q < n && steps[q].action.Invalidate?
      ensures Enough(At(start, steps, q + 1), key, f)
         <==> EnoughOthers(At(start, steps, q), key, steps[q].action.account, f)
    {
      InvalidationEnough(start, steps, n, key, i, q, f);
    }
  }

  /**
   * With a fixed, monotone set of permissions, the transaction stays authorized for the whole delay if
   * and only if the approvals of the others suffice whenever somebody invalidates, as the tables stand
   * before that: invalidating does not reset the timer.
   */
  lemma AuthorizationLasts(start: State, steps: seq<Step>, n: nat, key: Key, i: nat, j: nat,
                           f: (Trx, seq<Level>) -> bool)
    requires n <= |steps| && Legacy(start) && InOrder(steps)
    requires DelayObserved(start, steps, n, key, i, j) && Monotone(f)
    requires forall q :: j <= q < n ==> steps[q].host.authorized == f
    ensures EnoughDuring(start, steps, n, key, j, f) <==> NoneNeeded(start, steps, n, key, j, f)
  {
    hide Monotone, Apply, Enough, NoneNeeded, InOrder;
    NoneNeededAfter(start, steps, n, key, i, j, f);
    if NoneNeeded(start, steps, n, key, j, f) {
      OriginBefore(start, steps, n, key, i);
      forall m | j < m <= n ensures Enough(At(start, steps, m), key, f) {
        EnoughThrough(start, steps, n, key, j, m, f);
      }
    }
  }

  // ---- a history in which it does not last ----

  ghost predicate TwoSign(trx: Trx, levels: seq<Level>) {
    |levels| >= 2
  }

  ghost function Around(now: nat): Host {
    Host(now, TwoSign, _ => 0)
  }

  const KEY := Key(1, 7)
  const TRX := Trx(100, 10, false, 0)
  const ALICE := Level(11, 1)
  const BOB := Level(12, 1)
  const CAROL := Level(13, 1)

  ghost function Example(): seq<Step> {
    [ Step(Around(0), Propose(KEY, [ALICE, BOB, CAROL], TRX)),
      Step(Around(SECOND), Approve(KEY, ALICE, None)),
      Step(Around(SECOND), Approve(KEY, BOB, None)),
      Step(Around(2 * SECOND), Invalidate(11)),
      Step(Around(11 * SECOND), Approve(KEY, CAROL, None)),
      Step(Around(11 * SECOND), Exec(KEY)) ]
  }

  ghost function Row(timer: Timer, requested: seq<Approval>, provided: seq<Approval>,
                     invalidations: map<Name, nat>): State {
    State(map[KEY := Proposal(TRX, timer)], map[KEY := Approvals(requested, provided)], invalidations)
  }

  ghost function Alice(): Approval { Approval(ALICE, SECOND) }
  ghost function Bob(): Approval { Approval(BOB, SECOND) }
  ghost function Carol(): Approval { Approval(CAROL, 11 * SECOND) }

  lemma CountedTwo(invalidations: map<Name, nat>)
    ensures Counted([Alice(), Bob()], invalidations)
         == (if Live(invalidations, Alice()) then [ALICE] else []) + if Live(invalidations, Bob()) then [BOB] else []
  {
    CountedAppend([], invalidations, Alice());
    CountedAppend([Alice()], invalidations, Bob());
    assert [] + [Alice()] == [Alice()] && [Alice()] + [Bob()] == [Alice(), Bob()];
  }

  lemma ExampleProposal()
    ensures Apply(EMPTY, Around(0), Propose(KEY, [ALICE, BOB, CAROL], TRX))
         == Ok(Row(Unset, [Approval(ALICE, 0), Approval(BOB, 0), Approval(CAROL, 0)], [], map[]))
  {
    assert Fresh([ALICE, BOB, CAROL]) == [Approval(ALICE, 0), Approval(BOB, 0), Approval(CAROL, 0)];
  }

  // The first requested level approves.
  lemma ExampleApproval(timer: Timer, rest: seq<Approval>, provided: seq<Approval>, inv: map<Name, nat>,
                        level: Level, now: nat)
    requires timer != Absent
    ensures Apply(Row(timer, [Approval(level, 0)] + rest, provided, inv), Around(now), Approve(KEY, level, None))
         == Ok(Row(NextTimer(timer, Counted(provided + [Approval(level, now)], inv), now),
                   rest, provided + [Approval(level, now)], inv))
  {
    hide Counted;
    var s := Row(timer, [Approval(level, 0)] + rest, provided, inv);
    var requested := s.approvals[KEY].requested;
    assert requested[..0] + requested[1..] == rest;
    assert Find(requested, level) == 0;
    var row := Approvals(rest, provided + [Approval(level, now)]);
    assert s.approvals[KEY := row] == map[KEY := row];
    var next := Proposal(TRX, Set(now + 10 * SECOND));
    assert s.proposals[KEY := next] == map[KEY := next];
  }

  ghost function NextTimer(timer: Timer, counted: seq<Level>, now: nat): Timer {
    if timer == Unset && |counted| >= 2 then Set(now + 10 * SECOND) else timer
  }

  lemma AtNext(steps: seq<Step>, n: nat, s: State, t: State)
    requires n < |steps| && At(EMPTY, steps, n) == s && Apply(s, steps[n].host, steps[n].action) == Ok(t)
    ensures At(EMPTY, steps, n + 1) == t
  {}

  lemma ExampleSigned()
    ensures At(EMPTY, Example(), 3) == Row(Set(11 * SECOND), [Approval(CAROL, 0)], [Alice(), Bob()], map[])
  {
    hide Row, Counted, Apply, At;
    var bob, carol := Approval(BOB, 0), Approval(CAROL, 0);
    var s1, s2 := Row(Unset, [Approval(ALICE, 0), bob, carol], [], map[]), Row(Unset, [bob, carol], [Alice()], map[]);
    assert At(EMPTY, Example(), 0) == EMPTY by {
      Nothing(Example());
    }
    ExampleProposal();
    AtNext(Example(), 0, EMPTY, s1);
    assert [Approval(ALICE, 0)] + [bob, carol] == [Approval(ALICE, 0), bob, carol];
    CountedOne(map[]);
    ExampleApproval(Unset, [bob, carol], [], map[], ALICE, SECOND);
    assert [] + [Alice()] == [Alice()];
    AtNext(Example(), 1, s1, s2);
    assert [bob] + [carol] == [bob, carol];
    CountedTwo(map[]);
    ExampleApproval(Unset, [carol], [Alice()], map[], BOB, SECOND);
    assert [Alice()] + [Bob()] == [Alice(), Bob()];
    AtNext(Example(), 2, s2, Row(Set(11 * SECOND), [carol], [Alice(), Bob()], map[]));
  }

  lemma Nothing(steps: seq<Step>)
    ensures At(EMPTY, steps, 0) == EMPTY
  {}

  lemma CountedOne(invalidations: map<Name, nat>)
    ensures |Counted([Alice()], invalidations)| <= 1
  {
    CountedAppend([], invalidations, Alice());
    assert [] + [Alice()] == [Alice()];
  }

  ghost function Invalidated(): State {
    Row(Set(11 * SECOND), [Approval(CAROL, 0)], [Alice(), Bob()], map[11 := 2 * SECOND])
  }

  ghost function Completed(): State {
    Row(Set(11 * SECOND), [], [Alice(), Bob()] + [Carol()], map[11 := 2 * SECOND])
  }

  lemma ExampleInvalidated()
    ensures At(EMPTY, Example(), 4) == Invalidated() && |LevelsFor(Invalidated(), KEY)| == 1
  {
    hide At, Counted;
    ExampleSigned();
    var s3 := Row(Set(11 * SECOND), [Approval(CAROL, 0)], [Alice(), Bob()], map[]);
    assert map[][11 := 2 * SECOND] == map[11 := 2 * SECOND];
    AtNext(Example(), 3, s3, Invalidated());
    CountedTwo(map[11 := 2 * SECOND]);
  }

  lemma ExampleCompleted()
    ensures At(EMPTY, Example(), 5) == Completed() && |LevelsFor(Completed(), KEY)| == 2
  {
    hide At, Counted, Apply;
    ExampleInvalidated();
    var inv, carol := map[11 := 2 * SECOND], Approval(CAROL, 0);
    ExampleApproval(Set(11 * SECOND), [], [Alice(), Bob()], inv, CAROL, 11 * SECOND);
    assert [carol] + [] == [carol];
    CountedAppend([Alice(), Bob()], inv, Carol());
    AtNext(Example(), 4, Invalidated(), Completed());
    CountedTwo(inv);
  }

  /**
   * Two of three sign and one of them invalidates a second later; the third signs when the first
   * timer has run out, and the transaction is executed although the two signatures that authorize
   * it have only just come together.
   */
  lemma InvalidationKeepsTimer()
    ensures InOrder(Example()) && Succeeds(EMPTY, Example(), 5)
    ensures !Enough(At(EMPTY, Example(), 4), KEY, TwoSign)
    ensures At(EMPTY, Example(), 4).proposals[KEY].earliest == Set(11 * SECOND)
  {
    hide At, LevelsFor;
    ExampleInvalidated();
    ExampleCompleted();
  }
}
