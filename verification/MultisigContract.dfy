/** The multisig actions as the contract runs them, over its three tables. */
module MultisigContract {
  import opened Common
  import opened MultisigSpec

  class Multisig {
    var proposals: map<Key, Proposal>
    var approvals: map<Key, Approvals>
    var invalidations: map<Name, nat>

    ghost function Tables(): State
      reads this
    {
      State(proposals, approvals, invalidations)
    }

    constructor ()
      ensures Tables() == EMPTY
    {
      proposals, approvals, invalidations := map[], map[], map[];
    }

    /** The approvals that count; the row itself is the caller's to keep or erase. */
    method GetApprovals(key: Key) returns (levels: seq<Level>)
      ensures levels == LevelsFor(Tables(), key)
      ensures forall level :: level in levels <==>
                && key in approvals
                && exists a :: a in approvals[key].provided && a.level == level && Live(invalidations, a)
    {
      levels := [];
      if key in approvals {
        var provided := approvals[key].provided;
        var i := 0;
        while i < |provided|
          invariant i <= |provided| && levels == Counted(provided[..i], invalidations)
        {
          var a := provided[i];
          assert provided[..i + 1][..i] == provided[..i];
          if a.level.actor !in invalidations || invalidations[a.level.actor] < a.time {
            levels := levels + [a.level];
          }
          i := i + 1;
        }
        assert provided[..i] == provided;
        forall level | level in levels
          ensures exists a :: a in provided && a.level == level && Live(invalidations, a)
        {
          CountedSound(provided, invalidations, level);
        }
        forall a | a in provided && Live(invalidations, a) ensures a.level in levels {
          CountedComplete(provided, invalidations, a);
        }
      }
    }

    /** std::find_if over a list of approvals. */
    static method FindLevel(list: seq<Approval>, level: Level) returns (i: nat)
      ensures i == Find(list, level)
      ensures i <= |list| && (forall j :: 0 <= j < i ==> list[j].level != level)
      ensures i < |list| ==> list[i].level == level
    {
      i := 0;
      while i < |list| && list[i].level != level
        invariant i <= |list| && forall j :: 0 <= j < i ==> list[j].level != level
      {
        i := i + 1;
      }
      FindIs(list, level, i);
    }

    method ProposeTransaction(h: Host, key: Key, levels: seq<Level>, trx: Trx) returns (ok: bool)
      modifies this
      ensures ok <==> DoPropose(old(Tables()), h, key, levels, trx).Ok?
      ensures Tables() == if ok then DoPropose(old(Tables()), h, key, levels, trx).value else old(Tables())
    {
      if key.name == 0 || |levels| == 0 || trx.expiration < h.now / SECOND || trx.contextFree || key in proposals {
        return false;
      }
      if !h.authorized(trx, levels) || key in approvals {
        return false;
      }
      var requested := [];
      for i := 0 to |levels|
        invariant requested == Fresh(levels[..i])
      {
        requested := requested + [Approval(levels[i], 0)];
      }
      assert levels[..|levels|] == levels;
      proposals := proposals[key := Proposal(trx, Unset)];
      approvals := approvals[key := Approvals(requested, [])];
      ok := true;
    }

    method ApproveProposal(h: Host, key: Key, level: Level, hash: Option<nat>) returns (ok: bool)
      modifies this
      ensures ok <==> DoApprove(old(Tables()), h, key, level, hash).Ok?
      ensures Tables() == if ok then DoApprove(old(Tables()), h, key, level, hash).value else old(Tables())
    {
      if key !in proposals || (hash.Some? && h.sha256(proposals[key].trx) != hash.value) {
        return false;
      }
      var saved := approvals;
      if key in approvals {
        var row := approvals[key];
        var at := FindLevel(row.requested, level);
        if at == |row.requested| {
          return false;
        }
        approvals := approvals[key := Approvals(row.requested[..at] + row.requested[at + 1..],
                                                row.provided + [Approval(level, h.now)])];
      }
      var prop := proposals[key];
      if prop.earliest.Unset? {
        var levels := GetApprovals(key);
        if h.authorized(prop.trx, levels) {
          proposals := proposals[key := prop.(earliest := Set(h.now + prop.trx.delaySec * SECOND))];
        }
      } else if prop.earliest.Absent? && prop.trx.delaySec != 0 {
        approvals := saved;
        return false;
      }
      ok := true;
    }

    method UnapproveProposal(h: Host, key: Key, level: Level) returns (ok: bool)
      modifies this
      ensures ok <==> DoUnapprove(old(Tables()), h, key, level).Ok?
      ensures Tables() == if ok then DoUnapprove(old(Tables()), h, key, level).value else old(Tables())
    {
      if key !in approvals {
        return false;
      }
      var saved, row := approvals, approvals[key];
      var at := FindLevel(row.provided, level);
      if at == |row.provided| || key !in proposals {
        return false;
      }
      approvals := approvals[key := Approvals(row.requested + [Approval(level, h.now)],
                                              row.provided[..at] + row.provided[at + 1..])];
      var prop := proposals[key];
      if prop.earliest.Set? {
        var levels := GetApprovals(key);
        if !h.authorized(prop.trx, levels) {
          proposals := proposals[key := prop.(earliest := Unset)];
        }
      } else if prop.earliest.Absent? && prop.trx.delaySec != 0 {
        approvals := saved;
        return false;
      }
      ok := true;
    }

    method CancelProposal(now: nat, key: Key, canceler: Name) returns (ok: bool)
      modifies this
      ensures ok <==> DoCancel(old(Tables()), now, key, canceler).Ok?
      ensures Tables() == if ok then DoCancel(old(Tables()), now, key, canceler).value else old(Tables())
    {
      if key !in proposals || (canceler != key.proposer && proposals[key].trx.expiration >= now / SECOND) {
        return false;
      }
      proposals := proposals - {key};
      if key in approvals {
        approvals := approvals - {key};
      }
      ok := true;
    }

    /** On success `sent` holds the transaction whose actions are sent. */
    method ExecuteProposal(h: Host, key: Key) returns (ok: bool, sent: Option<Trx>)
      modifies this
      ensures ok <==> DoExec(old(Tables()), h, key).Ok?
      ensures Tables() == if ok then DoExec(old(Tables()), h, key).value else old(Tables())
      ensures sent == if ok then Some(old(proposals)[key].trx) else None
    {
      ok, sent := false, None;
      if key !in proposals {
        return;
      }
      var prop := proposals[key];
      if prop.trx.expiration < h.now / SECOND || prop.trx.contextFree {
        return;
      }
      var saved := approvals;
      var levels := GetApprovals(key);
      if key in approvals {
        approvals := approvals - {key};
      }
      if !h.authorized(prop.trx, levels) {
        approvals := saved;
        return;
      }
      if prop.earliest.Set? {
        if prop.earliest.time > h.now {
          approvals := saved;
          return;
        }
      } else if prop.trx.delaySec != 0 {
        approvals := saved;
        return;
      }
      proposals := proposals - {key};
      ok, sent := true, Some(prop.trx);
    }

    method InvalidateAccount(h: Host, account: Name)
      modifies this`invalidations
      ensures Tables() == Apply(old(Tables()), h, Invalidate(account)).value
    {
      invalidations := invalidations[account := h.now];
    }
  }

  lemma {:induction false} FindIs(list: seq<Approval>, level: Level, i: nat)
    requires i <= |list| && (forall j :: 0 <= j < i ==> list[j].level != level)
    requires i < |list| ==> list[i].level == level
    ensures Find(list, level) == i
  {
    if i > 0 {
      FindIs(list[1..], level, i - 1);
    }
  }
}
