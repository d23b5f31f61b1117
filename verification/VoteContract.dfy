/** The voting actions of flon.system as the contract runs them. */
module VoteContract {
  import opened Common
  import opened VoteSpec

  class VoteTables {
    var totalStake: int
    var electionActivated: int
    var producers: map<Name, Producer>
    var voters: map<Name, Voter>
    var refunds: map<Name, Refund>

    ghost function Tables(): State
      reads this
    {
      State(totalStake, electionActivated, producers, voters, refunds)
    }

    // Stored producer lists passed the sortedness check when they were stored.
    ghost predicate Valid()
      reads this
    {
      forall v :: v in voters ==> StrictlySorted(voters[v].producers)
    }

    constructor ()
      ensures Valid() && Tables() == State(0, 0, map[], map[], map[])
    {
      totalStake, electionActivated := 0, 0;
      producers, voters, refunds := map[], map[], map[];
    }

    method RegisterProducer(p: Name)
      modifies this`producers
      ensures Tables() == Register(old(Tables()), p)
    {
      if p in producers {
        producers := producers[p := producers[p].(active := true)];
      } else {
        producers := producers[p := Producer(0, true)];
      }
    }

    method DeactivateProducer(p: Name) returns (ok: bool)
      modifies this`producers
      ensures ok <==> Deactivate(old(Tables()), p).Ok?
      ensures Tables() == if ok then Deactivate(old(Tables()), p).value else old(Tables())
    {
      ok := p in producers;
      if ok {
        producers := producers[p := producers[p].(active := false)];
      }
    }

    /** Adds `delta` to each listed producer in turn; may stop half-way, which the caller undoes. */
    method UpdateProducerVotes(list: seq<Name>, delta: int) returns (ok: bool)
      requires StrictlySorted(list)
      modifies this`producers
      ensures ok <==> CanUpdate(old(producers), Elements(list), delta)
      ensures ok ==> producers == Updated(old(producers), Elements(list), delta)
    {
      hide Updated;
      ghost var rows := producers;
      UpdateNothing(rows, delta);
      assert Elements(list[..0]) == {};
      var i := 0;
      while i < |list|
        invariant 0 <= i <= |list|
        invariant CanUpdate(rows, Elements(list[..i]), delta)
        invariant producers == Updated(rows, Elements(list[..i]), delta)
      {
        ElementsStep(list, i);
        UpdateOneMore(rows, Elements(list[..i]), delta, list[i]);
        var p := list[i];
        if p !in producers || (delta > 0 && !producers[p].active) {
          assert p in Elements(list);
          return false;
        }
        var votes := Int64(producers[p].totalVotes + delta);
        if votes < 0 {
          assert p in Elements(list);
          return false;
        }
        producers := producers[p := producers[p].(totalVotes := votes)];
        i := i + 1;
      }
      assert list[..i] == list;
      ok := true;
    }

    /**
     * The list walk of voteproducer. Iterators into different vectors are never equal and their
     * order is arbitrary, so each step takes from either list; the outcome is the same every time.
     */
    method DiffLists(olds: seq<Name>, news: seq<Name>)
      returns (removed: seq<Name>, modified: seq<Name>, added: seq<Name>)
      ensures removed == olds && modified == [] && added == news
    {
      removed, modified, added := [], [], [];
      var i, j := 0, 0;
      while i < |olds| || j < |news|
        invariant 0 <= i <= |olds| && 0 <= j <= |news|
        invariant removed == olds[..i] && modified == [] && added == news[..j]
        decreases |olds| - i + |news| - j
      {
        if i < |olds| && j < |news| {
          if * {
            removed, i := removed + [olds[i]], i + 1;
          } else {
            added, j := added + [news[j]], j + 1;
          }
        } else if i < |olds| {
          removed, i := removed + [olds[i]], i + 1;
        } else {
          added, j := added + [news[j]], j + 1;
        }
      }
    }

    method VoteForProducers(k: Name, list: seq<Name>) returns (ok: bool)
      requires Valid()
      modifies this
      ensures Valid()
      ensures ok <==> VoteProducer(old(Tables()), k, list).Ok?
      ensures Tables() == if ok then VoteProducer(old(Tables()), k, list).value else old(Tables())
    {
      hide CanUpdate;
      hide Updated;
      ok := false;
      if |list| > MAX_VOTE_PRODUCER_COUNT {
        return;
      }
      var sorted := IsStrictlySorted(list);
      if !sorted {
        return;
      }
      if k !in voters || voters[k].votes < 0 || voters[k].producers == list {
        return;
      }
      var v := voters[k];
      var saved := producers;
      var removed, modified, added := DiffLists(v.producers, list);
      ok := UpdateProducerVotes(removed, -v.votes);
      if ok {
        UpdateZero(producers);
        ok := UpdateProducerVotes(modified, 0);
        if ok {
          ok := UpdateProducerVotes(added, v.votes);
        }
      }
      if ok {
        voters := voters[k := v.(producers := list)];
      } else {
        producers := saved;
      }
    }

    method AddVotes(k: Name, amount: int) returns (ok: bool)
      requires Valid()
      modifies this
      ensures Valid()
      ensures ok <==> AddVote(old(Tables()), k, amount).Ok?
      ensures Tables() == if ok then AddVote(old(Tables()), k, amount).value else old(Tables())
    {
      hide CanUpdate;
      hide Updated;
      if amount <= 0 || totalStake + amount > MAX_ASSET {
        return false;
      }
      var savedStake, saved := totalStake, producers;
      if totalStake == 0 {
        totalStake := amount;
      } else {
        totalStake := totalStake + amount;
      }
      ok := true;
      if k in voters {
        var v := voters[k];
        if |v.producers| > 0 {
          ok := UpdateProducerVotes(v.producers, amount);
        } else {
          UpdateEmpty(producers, v.producers, amount);
        }
        if ok {
          voters := voters[k := v.(votes := Int64(v.votes + amount))];
        }
      } else {
        voters := voters[k := Voter(amount, [])];
      }
      if !ok {
        totalStake, producers := savedStake, saved;
      }
    }

    method SubVotes(k: Name, amount: int, now: int) returns (ok: bool)
      requires Valid()
      modifies this
      ensures Valid()
      ensures ok <==> SubVote(old(Tables()), k, amount, now).Ok?
      ensures Tables() == if ok then SubVote(old(Tables()), k, amount, now).value else old(Tables())
    {
      hide CanUpdate;
      hide Updated;
      if electionActivated == 0 || electionActivated > now || amount <= 0
         || k !in voters || voters[k].votes < amount || totalStake < amount {
        return false;
      }
      var savedStake, saved := totalStake, producers;
      totalStake := totalStake - amount;
      ok := k !in refunds;
      if ok {
        ok := UpdateProducerVotes(voters[k].producers, -amount);
      }
      if ok {
        voters := voters[k := voters[k].(votes := voters[k].votes - amount)];
        refunds := refunds[k := Refund(amount, now / MICROSECONDS)];
      } else {
        totalStake, producers := savedStake, saved;
      }
    }

    /** `paid` is the inline transfer from flon.vote to the owner. */
    method PayRefund(owner: Name, now: int) returns (ok: bool, paid: int)
      modifies this`refunds
      ensures ok <==> VoteRefund(old(Tables()), owner, now).Ok?
      ensures ok ==> VoteRefund(old(Tables()), owner, now).value == (Tables(), paid)
      ensures !ok ==> Tables() == old(Tables())
    {
      ok, paid := false, 0;
      if owner in refunds {
        var r := refunds[owner];
        if (r.requestSec + REFUND_DELAY_SEC) * MICROSECONDS <= now {
          ok, paid := true, r.staked;
          refunds := refunds - {owner};
        }
      }
    }
  }

  lemma UpdateNothing(rows: map<Name, Producer>, delta: int)
    ensures CanUpdate(rows, {}, delta) && Updated(rows, {}, delta) == rows
  {}

  lemma UpdateZero(rows: map<Name, Producer>)
    ensures CanUpdate(rows, Elements([]), 0) && Updated(rows, Elements([]), 0) == rows
  {
    assert Elements([]) == {};
    UpdateNothing(rows, 0);
  }

  lemma UpdateEmpty(rows: map<Name, Producer>, list: seq<Name>, delta: int)
    requires |list| == 0
    ensures CanUpdate(rows, Elements(list), delta) && Updated(rows, Elements(list), delta) == rows
  {
    assert Elements(list) == {};
    UpdateNothing(rows, delta);
  }

  lemma UpdateOneMore(rows: map<Name, Producer>, done: set<Name>, delta: int, p: Name)
    requires CanUpdate(rows, done, delta)
    ensures p in Updated(rows, done, delta) <==> p in rows
    ensures p !in done && p in rows ==>
              && Updated(rows, done, delta)[p] == rows[p]
              && Updated(rows, done + {p}, delta)
                 == Updated(rows, done, delta)[p := rows[p].(totalVotes := Int64(rows[p].totalVotes + delta))]
  {}
}
