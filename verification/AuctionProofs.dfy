/** What each auction action keeps, and when it succeeds. */
module AuctionProofs {
  import opened Common
  import opened Sums
  import opened AuctionSpec
  import Token

  // ---- the highbid index ----

  /** The negated unsigned key separates open from closed auctions and puts the largest bid first. */
  lemma LowerBoundIsHighest(bids: map<Name, Bid>, n: Name)
    requires forall m :: m in bids ==> bids[m].highBid != 0 && -MAX_ASSET <= bids[m].highBid <= MAX_ASSET
    ensures IsLowerBound(bids, n) <==> IsHighest(bids, n)
  {
    forall m | m in bids
      ensures AtBound(bids, m) <==> Open(bids, m)
      ensures HighBidKey(bids[m]) == if bids[m].highBid > 0 then TWO64 - bids[m].highBid else -bids[m].highBid
    {
      KeyOfBid(bids[m].highBid);
    }
  }

  lemma KeyOfBid(highBid: int)
    requires -MAX_ASSET <= highBid <= MAX_ASSET
    ensures (-highBid) % TWO64 == if highBid > 0 then TWO64 - highBid else -highBid
  {}

  lemma LowerBoundUnique(bids: map<Name, Bid>, m: Name, n: Name)
    requires IsLowerBound(bids, m) && IsLowerBound(bids, n)
    ensures m == n
  {}

  // ---- sums ----

  lemma OpenBidsUpdate(bids: map<Name, Bid>, n: Name, row: Bid)
    ensures Sum(OpenBids(bids[n := row])) ==
              Sum(OpenBids(bids)) - (if Open(bids, n) then bids[n].highBid else 0)
                  + (if row.highBid > 0 then row.highBid else 0)
  {
    var v := if row.highBid > 0 then row.highBid else 0;
    assert OpenBids(bids[n := row]).Keys == OpenBids(bids)[n := v].Keys;
    assert OpenBids(bids[n := row]) == OpenBids(bids)[n := v];
    SumUpdate(OpenBids(bids), n, v);
  }

  lemma OpenBidsErase(bids: map<Name, Bid>, n: Name)
    requires n in bids && bids[n].highBid <= 0
    ensures Sum(OpenBids(bids - {n})) == Sum(OpenBids(bids))
  {
    assert OpenBids(bids - {n}).Keys == (OpenBids(bids) - {n}).Keys;
    assert OpenBids(bids - {n}) == OpenBids(bids) - {n};
    SumRemove(OpenBids(bids), n);
  }

  /** What is owed to one bidder, on a name or as a refund, is covered by the names account. */
  lemma Covered(s: State, newname: Name, c: Claim)
    requires AuctionOk(s)
    ensures 0 <= (if Open(s.bids, newname) then s.bids[newname].highBid else 0) + At(s.refunds, c)
              <= Token.Balance(s.ledger, NAMES) <= MAX_ASSET
  {
    Token.BalanceWithinSupply(s.ledger, NAMES);
    var open := OpenBids(s.bids);
    forall n | n in open ensures open[n] >= 0 {
      assert BidOk(s, n);
    }
    forall k | k in s.refunds ensures s.refunds[k] >= 0 {
      assert RefundOk(s, k);
    }
    SumNonNegative(open);
    SumNonNegative(s.refunds);
    if newname in open {
      SumTerm(open, newname);
    }
    if c in s.refunds {
      SumTerm(s.refunds, c);
    }
  }

  // ---- actions ----

  // The rows after an accepted bid, before the tokens arrive.
  lemma OutbidTables(s: State, bidder: Name, newname: Name, amount: int, now: int)
    requires AuctionOk(s) && 0 < amount <= MAX_ASSET && bidder in s.ledger.accounts && bidder != NAMES
    requires Outbid(s, bidder, newname, amount, now).Ok?
    ensures var t := Outbid(s, bidder, newname, amount, now).value;
            && (forall n :: BidOk(t, n)) && (forall c :: RefundOk(t, c))
            && Liabilities(t) == Liabilities(s) + amount
            && t.ledger == s.ledger
  {
    hide AuctionOk;
    AuctionParts(s);
    var t := Outbid(s, bidder, newname, amount, now).value;
    forall n ensures BidOk(t, n) {
      assert BidOk(s, n);
    }
    OpenBidsUpdate(s.bids, newname, Bid(bidder, amount, now));
    if newname in s.bids {
      var c := Claim(newname, s.bids[newname].highBidder);
      assert BidOk(s, newname) && RefundOk(s, c);
      SumUpdate(s.refunds, c, Owed(s, newname));
    }
    forall c ensures RefundOk(t, c) {
      assert RefundOk(s, c);
    }
  }

  lemma AuctionParts(s: State)
    requires AuctionOk(s)
    ensures (forall n :: BidOk(s, n)) && (forall c :: RefundOk(s, c))
    ensures Token.LedgerOk(s.ledger) && {NAMES, FEES} <= s.ledger.accounts && Slack(s) >= 0
  {}

  // Moving tokens after the tables have changed.
  lemma TransferKeeps(t: State, from: Name, to: Name, amount: int, s: State)
    requires Token.LedgerOk(t.ledger) && {NAMES, FEES} <= t.ledger.accounts && t.ledger == s.ledger
    requires (forall n :: BidOk(t, n)) && (forall c :: RefundOk(t, c))
    requires Slack(s) >= 0 && Transferred(t, from, to, amount).Ok?
    requires Liabilities(t)
               == Liabilities(s) - (if from == NAMES then amount else 0) + (if to == NAMES then amount else 0)
    ensures AuctionOk(Transferred(t, from, to, amount).value)
    ensures Slack(Transferred(t, from, to, amount).value) == Slack(s)
  {
    Token.TransferLedger(t.ledger, from, to, amount);
    var u := Transferred(t, from, to, amount).value;
    forall n ensures BidOk(u, n) {
      assert BidOk(t, n);
    }
    forall c ensures RefundOk(u, c) {
      assert RefundOk(t, c);
    }
  }

  // The rules for a bid, in the caller's terms.
  ghost predicate Acceptable(s: State, bidder: Name, newname: Name, amount: int) {
    && IsTopLevel(s, newname) && Biddable(newname) && newname !in s.ledger.accounts
    && bidder != NAMES && 0 < amount <= Token.Balance(s.ledger, bidder)
    && (newname in s.bids ==>
          Open(s.bids, newname) && 10 * amount > 11 * s.bids[newname].highBid && bidder != s.bids[newname].highBidder)
  }

  lemma TenPercent(amount: int, high: int)
    requires high > 0
    ensures amount - high > high / 10 ==> 10 * amount > 11 * high
    ensures 10 * amount > 11 * high ==> amount - high > high / 10
  {}

  /**
   * A bid succeeds exactly when it is acceptable: the refund's overflow check never fires. It moves the
   * tokens to the names account and the difference to its liabilities is unchanged.
   */
  lemma BidKeeps(s: State, bidder: Name, newname: Name, amount: int, now: int)
    requires AuctionOk(s) && bidder in s.ledger.accounts
    ensures BidName(s, bidder, newname, amount, now).Ok? <==> Acceptable(s, bidder, newname, amount)
    ensures BidName(s, bidder, newname, amount, now).Ok? ==>
              var t := BidName(s, bidder, newname, amount, now).value;
              && AuctionOk(t) && Slack(t) == Slack(s)
              && t.bids == s.bids[newname := Bid(bidder, amount, now)]
              && Token.Balance(t.ledger, bidder) == Token.Balance(s.ledger, bidder) - amount
              && t.refunds == if newname in s.bids
                              then s.refunds[Claim(newname, s.bids[newname].highBidder) := Owed(s, newname)]
                              else s.refunds
  {
    hide AuctionOk, Slack, Liabilities, Biddable;
    AuctionParts(s);
    Token.TransferLedger(s.ledger, bidder, NAMES, amount);
    Token.BalanceWithinSupply(s.ledger, bidder);
    if newname in s.bids {
      assert BidOk(s, newname);
      if s.bids[newname].highBid > 0 {
        TenPercent(amount, s.bids[newname].highBid);
      }
      Covered(s, newname, Claim(newname, s.bids[newname].highBidder));
    }
    if BidName(s, bidder, newname, amount, now).Ok? {
      OutbidTables(s, bidder, newname, amount, now);
      TransferKeeps(Outbid(s, bidder, newname, amount, now).value, bidder, NAMES, amount, s);
    }
  }

  /** Every recorded refund can be paid, in full and once. */
  lemma RefundKeeps(s: State, bidder: Name, newname: Name)
    requires AuctionOk(s)
    ensures BidRefund(s, bidder, newname).Ok? <==> Claim(newname, bidder) in s.refunds
    ensures BidRefund(s, bidder, newname).Ok? ==>
              var t := BidRefund(s, bidder, newname).value;
              && AuctionOk(t) && Slack(t) == Slack(s) && t.bids == s.bids
              && t.refunds == s.refunds - {Claim(newname, bidder)}
              && Token.Balance(t.ledger, bidder) == Token.Balance(s.ledger, bidder) + s.refunds[Claim(newname, bidder)]
  {
    var c := Claim(newname, bidder);
    if c in s.refunds {
      assert RefundOk(s, c);
      var t := s.(refunds := s.refunds - {c});
      SumRemove(s.refunds, c);
      forall n ensures BidOk(t, n) {
        assert BidOk(s, n);
      }
      forall k ensures RefundOk(t, k) {
        assert RefundOk(s, k);
      }
      Covered(s, newname, c);
      assert At(s.refunds, c) <= Token.Balance(s.ledger, NAMES) by {
        assert BidOk(s, newname);
      }
      Token.TransferLedger(s.ledger, NAMES, bidder, s.refunds[c]);
      TransferKeeps(t, NAMES, bidder, s.refunds[c], s);
    }
  }

  // The auction that this block closes.
  ghost predicate Closes(s: State, n: Name, slot: Slot, now: int) {
    && ScheduleDue(s, slot) && CloseDue(s, slot)
    && IsHighest(s.bids, n) && now - s.bids[n].lastBidTime > MICROSECONDS_PER_DAY
  }

  lemma ClosingMeans(s: State, n: Name, slot: Slot, now: int)
    requires AuctionOk(s) && ScheduleDue(s, slot)
    ensures IsClosing(s, n, slot, now) <==> Closes(s, n, slot, now)
  {
    forall m | m in s.bids ensures s.bids[m].highBid != 0 && -MAX_ASSET <= s.bids[m].highBid <= MAX_ASSET {
      assert BidOk(s, m);
    }
    LowerBoundIsHighest(s.bids, n);
  }

  lemma ClosedKeeps(s: State, n: Name, slot: Slot)
    requires AuctionOk(s) && Open(s.bids, n)
    ensures Closed(s, n, slot).Ok?
    ensures var t := Closed(s, n, slot).value;
            && AuctionOk(t) && Slack(t) == Slack(s) && t.refunds == s.refunds && t.lastClose == slot
            && t.lastSchedule == s.lastSchedule
            && t.bids == s.bids[n := s.bids[n].(highBid := -s.bids[n].highBid)]
            && t.ledger.accounts == s.ledger.accounts
            && Token.Balance(t.ledger, FEES) == Token.Balance(s.ledger, FEES) + s.bids[n].highBid
  {
    hide AuctionOk;
    AuctionParts(s);
    var row := s.bids[n].(highBid := -s.bids[n].highBid);
    var t := s.(bids := s.bids[n := row], lastClose := slot);
    OpenBidsUpdate(s.bids, n, row);
    forall m ensures BidOk(t, m) {
      assert BidOk(s, m) && BidOk(s, n);
    }
    forall c ensures RefundOk(t, c) {
      assert RefundOk(s, c);
    }
    Covered(s, n, Claim(n, s.bids[n].highBidder));
    assert At(s.refunds, Claim(n, s.bids[n].highBidder)) >= 0 by {
      assert RefundOk(s, Claim(n, s.bids[n].highBidder));
    }
    Token.TransferLedger(s.ledger, NAMES, FEES, s.bids[n].highBid);
    TransferKeeps(t, NAMES, FEES, s.bids[n].highBid, s);
  }

  /**
   * onblock never fails here. It closes at most one auction: the largest open bid, smallest name first,
   * provided that nobody has bid on it for a day and that no auction was closed within the last day's
   * slots; the price goes from the names account to the fees account.
   */
  lemma BlockKeeps(s: State, slot: Slot, now: int)
    requires AuctionOk(s)
    ensures OnBlock(s, slot, now).Ok?
    ensures var t := OnBlock(s, slot, now).value;
            && AuctionOk(t) && Slack(t) == Slack(s) && t.refunds == s.refunds
            && t.ledger.accounts == s.ledger.accounts
            && t.lastSchedule == (if ScheduleDue(s, slot) then slot else s.lastSchedule)
    ensures forall n :: Closes(s, n, slot, now) ==>
              var t := OnBlock(s, slot, now).value;
              && t.bids == s.bids[n := s.bids[n].(highBid := -s.bids[n].highBid)]
              && t.lastClose == slot
              && Token.Balance(t.ledger, FEES) == Token.Balance(s.ledger, FEES) + s.bids[n].highBid
    ensures (forall n :: !Closes(s, n, slot, now)) ==>
              OnBlock(s, slot, now).value == s.(lastSchedule := OnBlock(s, slot, now).value.lastSchedule)
  {
    hide AuctionOk, Closed, IsLowerBound, IsHighest;
    var t := s.(lastSchedule := slot);
    Rescheduled(s, slot);
    if ScheduleDue(s, slot) {
      forall n ensures IsClosing(s, n, slot, now) <==> Closes(s, n, slot, now) {
        ClosingMeans(s, n, slot, now);
      }
      forall m, n | Closes(s, m, slot, now) && Closes(s, n, slot, now) ensures m == n {
        HighestUnique(s.bids, m, n);
      }
      if n :| IsClosing(s, n, slot, now) {
        assert Closes(s, n, slot, now);
        HighestOpen(s.bids, n);
        ClosedKeeps(t, n, slot);
        assert forall m :: IsClosing(s, m, slot, now) ==> m == n;
      }
    }
  }

  lemma HighestOpen(bids: map<Name, Bid>, n: Name)
    requires IsHighest(bids, n)
    ensures Open(bids, n)
  {}

  lemma HighestUnique(bids: map<Name, Bid>, m: Name, n: Name)
    requires IsHighest(bids, m) && IsHighest(bids, n)
    ensures m == n
  {}

  lemma Rescheduled(s: State, slot: Slot)
    requires AuctionOk(s)
    ensures AuctionOk(s.(lastSchedule := slot)) && Slack(s.(lastSchedule := slot)) == Slack(s)
  {
    var t := s.(lastSchedule := slot);
    forall n ensures BidOk(t, n) {
      assert BidOk(s, n);
    }
    forall c ensures RefundOk(t, c) {
      assert RefundOk(s, c);
    }
  }

  // The winner of a closed auction takes the name.
  ghost predicate Claims(s: State, t: State, creator: Name, newname: Name) {
    && newname in s.bids && s.bids[newname].highBid < 0 && s.bids[newname].highBidder == creator
    && t.bids == s.bids - {newname}
  }

  // Who may create which new account.
  ghost predicate MayCreate(s: State, creator: Name, newname: Name) {
    && newname !in s.ledger.accounts
    && (creator != SYSTEM && HasDot(newname) ==>
          if IsTopLevel(s, newname)
          then newname in s.bids && s.bids[newname].highBid < 0 && s.bids[newname].highBidder == creator
          else creator == s.suffix(newname))
  }

  /** Creating an account erases at most a closed auction of that name, and touches no money. */
  lemma CreationKeeps(s: State, creator: Name, newname: Name)
    requires AuctionOk(s)
    ensures NewAccount(s, creator, newname).Ok? <==> MayCreate(s, creator, newname)
    ensures NewAccount(s, creator, newname).Ok? ==>
              var t := NewAccount(s, creator, newname).value;
              && AuctionOk(t) && Slack(t) == Slack(s) && t.refunds == s.refunds
              && t.ledger.accounts == s.ledger.accounts + {newname}
              && t.ledger.balances == s.ledger.balances
              && (t.bids == s.bids || Claims(s, t, creator, newname))
              && (creator != SYSTEM && IsTopLevel(s, newname) && HasDot(newname) ==> Claims(s, t, creator, newname))
  {
    hide HasDot;
    if NewAccount(s, creator, newname).Ok? {
      CreatedOk(s, NewAccount(s, creator, newname).value, newname);
    }
  }

  lemma CreatedOk(s: State, t: State, newname: Name)
    requires AuctionOk(s)
    requires t == s.(ledger := s.ledger.(accounts := s.ledger.accounts + {newname}), bids := t.bids)
    requires t.bids == s.bids || (newname in s.bids && s.bids[newname].highBid < 0 && t.bids == s.bids - {newname})
    ensures AuctionOk(t) && Slack(t) == Slack(s)
  {
    forall n ensures BidOk(t, n) {
      assert BidOk(s, n);
    }
    forall c ensures RefundOk(t, c) {
      assert RefundOk(s, c);
    }
    if newname in s.bids && s.bids[newname].highBid < 0 {
      OpenBidsErase(s.bids, newname);
    }
  }

  lemma ElsewhereKeeps(s: State, ledger: Token.Ledger)
    requires AuctionOk(s) && Lawful(s, Elsewhere(ledger))
    ensures AuctionOk(s.(ledger := ledger))
    ensures Slack(s.(ledger := ledger)) == Slack(s) + Token.Balance(ledger, NAMES) - Token.Balance(s.ledger, NAMES)
  {
    var t := s.(ledger := ledger);
    forall n ensures BidOk(t, n) {
      assert BidOk(s, n);
    }
    forall c ensures RefundOk(t, c) {
      assert RefundOk(s, c);
    }
  }
}
