/** Histories of name auctions: custody, escalation, finality. */
module AuctionRuns {
  import opened Common
  import opened AuctionSpec
  import opened AuctionProofs
  import opened Powers
  import Token

  // The state before step n; a failed action changes nothing.
  ghost function At(start: State, steps: seq<Action>, n: nat): State
    requires n <= |steps|
  {
    if n == 0 then start
    else
      match Apply(At(start, steps, n - 1), steps[n - 1])
      case Ok(t) => t
      case Err(_) => At(start, steps, n - 1)
  }

  ghost predicate Succeeds(start: State, steps: seq<Action>, n: nat) {
    n < |steps| && Apply(At(start, steps, n), steps[n]).Ok?
  }

  ghost predicate LawfulRun(start: State, steps: seq<Action>) {
    AuctionOk(start) && forall i :: 0 <= i < |steps| ==> Lawful(At(start, steps, i), steps[i])
  }

  // How much an action brings to the names account from outside the auctions.
  ghost function Gift(s: State, a: Action): int {
    if a.Elsewhere? then Token.Balance(a.ledger, NAMES) - Token.Balance(s.ledger, NAMES) else 0
  }

  lemma ApplyKeeps(s: State, a: Action)
    requires AuctionOk(s) && Lawful(s, a) && Apply(s, a).Ok?
    ensures AuctionOk(Apply(s, a).value) && Slack(Apply(s, a).value) == Slack(s) + Gift(s, a)
  {
    hide AuctionOk, Slack, BidName, BidRefund, OnBlock, NewAccount, Acceptable, Closes;
    match a
    case Bidding(bidder, newname, amount, now) => BidKeeps(s, bidder, newname, amount, now);
    case Refunding(bidder, newname) => RefundKeeps(s, bidder, newname);
    case Block(slot, now) => BlockKeeps(s, slot, now);
    case Creating(creator, newname) => CreationKeeps(s, creator, newname);
    case Elsewhere(ledger) => ElsewhereKeeps(s, ledger);
  }

  /**
   * In every state the names account covers all open bids and refunds, and exactly so, up to where it
   * started, if nobody sends it tokens from outside.
   */
  lemma {:induction false} CustodyRun(start: State, steps: seq<Action>, n: nat)
    requires LawfulRun(start, steps) && n <= |steps|
    ensures AuctionOk(At(start, steps, n)) && Slack(At(start, steps, n)) >= Slack(start)
    ensures (forall i :: 0 <= i < n ==> Gift(At(start, steps, i), steps[i]) == 0) ==>
              Slack(At(start, steps, n)) == Slack(start)
  {
    hide AuctionOk, Slack, Apply;
    if n > 0 {
      CustodyRun(start, steps, n - 1);
      if Succeeds(start, steps, n - 1) {
        ApplyKeeps(At(start, steps, n - 1), steps[n - 1]);
        assert Lawful(At(start, steps, n - 1), steps[n - 1]);
      }
    }
  }

  lemma LawfulAt(start: State, steps: seq<Action>, n: nat)
    requires LawfulRun(start, steps) && n < |steps|
    ensures AuctionOk(At(start, steps, n)) && Lawful(At(start, steps, n), steps[n])
  {
    hide AuctionOk, Apply, Lawful;
    CustodyRun(start, steps, n);
  }

  // ---- what happens to one name ----

  function Row(s: State, name: Name): Option<Bid> {
    if name in s.bids then Some(s.bids[name]) else None
  }

  predicate IsOpen(row: Option<Bid>) {
    row.Some? && row.value.highBid > 0
  }

  ghost predicate BidsOn(a: Action, name: Name) {
    a.Bidding? && a.newname == name
  }

  ghost predicate ClosesName(s: State, a: Action, name: Name) {
    a.Block? && Closes(s, name, a.slot, a.now)
  }

  // A successful action leaves the row of a name alone unless it bids on it, closes it or claims it.
  lemma RowEffect(s: State, a: Action, name: Name)
    requires AuctionOk(s) && Lawful(s, a) && Apply(s, a).Ok?
    ensures s.ledger.accounts <= Apply(s, a).value.ledger.accounts
    ensures BidsOn(a, name) ==>
              && Row(Apply(s, a).value, name) == Some(Bid(a.bidder, a.amount, a.now))
              && name !in s.ledger.accounts && a.amount > 0
              && (name in s.bids ==> s.bids[name].highBid > 0 && 10 * a.amount > 11 * s.bids[name].highBid)
    ensures ClosesName(s, a, name) ==>
              && name in s.bids && s.bids[name].highBid > 0
              && Row(Apply(s, a).value, name) == Some(s.bids[name].(highBid := -s.bids[name].highBid))
    ensures !BidsOn(a, name) && !ClosesName(s, a, name) ==>
              || Row(Apply(s, a).value, name) == Row(s, name)
              || (name in s.bids && s.bids[name].highBid < 0 && name in Apply(s, a).value.ledger.accounts
                  && Row(Apply(s, a).value, name) == None)
  {
    hide AuctionOk, Slack, BidName, BidRefund, OnBlock, NewAccount, Closes, Token.Balance, Biddable;
    match a
    case Bidding(bidder, newname, amount, now) =>
      BidKeeps(s, bidder, newname, amount, now);
      BidAccounts(s, bidder, newname, amount, now);
    case Refunding(bidder, newname) =>
      RefundKeeps(s, bidder, newname);
      RefundAccounts(s, bidder, newname);
    case Block(slot, now) =>
      BlockKeeps(s, slot, now);
      forall n | Closes(s, n, slot, now) ensures Open(s.bids, n) {
        ClosesOpen(s, n, slot, now);
      }
      BlockRows(s, slot, now, name);
    case Creating(creator, newname) => CreationKeeps(s, creator, newname);
    case Elsewhere(ledger) =>
  }

  lemma ClosesOpen(s: State, n: Name, slot: Slot, now: int)
    requires Closes(s, n, slot, now)
    ensures Open(s.bids, n)
  {}

  lemma BlockRows(s: State, slot: Slot, now: int, name: Name)
    requires AuctionOk(s)
    ensures OnBlock(s, slot, now).Ok?
    ensures !Closes(s, name, slot, now) ==> Row(OnBlock(s, slot, now).value, name) == Row(s, name)
  {
    hide AuctionOk, Slack, OnBlock, Closes;
    BlockKeeps(s, slot, now);
    if n :| Closes(s, n, slot, now) && n != name {
    }
  }

  lemma BidAccounts(s: State, bidder: Name, newname: Name, amount: int, now: int)
    requires AuctionOk(s) && BidName(s, bidder, newname, amount, now).Ok?
    ensures BidName(s, bidder, newname, amount, now).value.ledger.accounts == s.ledger.accounts
  {
    Token.TransferLedger(s.ledger, bidder, NAMES, amount);
  }

  lemma RefundAccounts(s: State, bidder: Name, newname: Name)
    requires AuctionOk(s) && BidRefund(s, bidder, newname).Ok?
    ensures BidRefund(s, bidder, newname).value.ledger.accounts == s.ledger.accounts
  {
    Token.TransferLedger(s.ledger, NAMES, bidder, s.refunds[Claim(newname, bidder)]);
  }

  // ---- escalation ----

  // The bid that opened the auction of the row now in the table.
  ghost function FirstBid(start: State, steps: seq<Action>, n: nat, name: Name): int
    requires n <= |steps|
  {
    if name !in At(start, steps, n).bids then 0
    else if n == 0 || name !in At(start, steps, n - 1).bids then At(start, steps, n).bids[name].highBid
    else FirstBid(start, steps, n - 1, name)
  }

  // How often that bid has been outbid.
  ghost function Outbids(start: State, steps: seq<Action>, n: nat, name: Name): nat
    requires n <= |steps|
  {
    if n == 0 || name !in At(start, steps, n).bids || name !in At(start, steps, n - 1).bids then 0
    else
      var raised := Succeeds(start, steps, n - 1) && BidsOn(steps[n - 1], name);
      Outbids(start, steps, n - 1, name) + if raised then 1 else 0
  }

  /** After k outbids the price exceeds (11/10)^k times the first bid, whatever the truncation of a tenth. */
  lemma {:induction false} Escalation(start: State, steps: seq<Action>, n: nat, name: Name)
    requires LawfulRun(start, steps) && n <= |steps| && IsOpen(Row(At(start, steps, n), name))
    ensures var k := Outbids(start, steps, n, name);
            var price, first := At(start, steps, n).bids[name].highBid, FirstBid(start, steps, n, name);
            && first > 0 && Pow(10, k) * price >= Pow(11, k) * first
            && (k >= 1 ==> Pow(10, k) * price > Pow(11, k) * first)
  {
    hide AuctionOk, Apply, Pow, LawfulRun, Lawful, ClosesName;
    PowBasics();
    if n > 0 {
      LawfulAt(start, steps, n - 1);
      var s, t, a := At(start, steps, n - 1), At(start, steps, n), steps[n - 1];
      if Succeeds(start, steps, n - 1) {
        RowEffect(s, a, name);
      }
      if name in s.bids {
        assert IsOpen(Row(s, name));
        Escalation(start, steps, n - 1, name);
        if Succeeds(start, steps, n - 1) && BidsOn(a, name) {
          RaiseStep(Outbids(start, steps, n - 1, name), s.bids[name].highBid, t.bids[name].highBid,
                    FirstBid(start, steps, n - 1, name));
        }
      }
    }
  }

  lemma PowBasics()
    ensures Pow(10, 0) == 1 && Pow(11, 0) == 1
  {}

  lemma {:induction false} RaiseStep(k: nat, high: int, amount: int, first: int)
    requires Pow(10, k) * high >= Pow(11, k) * first && 10 * amount > 11 * high
    ensures Pow(10, k + 1) * amount > Pow(11, k + 1) * first
  {
    var p, q := Pow(10, k), Pow(11, k);
    assert p * (10 * amount - 11 * high) > 0;
    assert Pow(10, k + 1) * amount == p * (10 * amount);
    assert p * (11 * high) == 11 * (p * high) && Pow(11, k + 1) * first == 11 * (q * first);
  }

  // ---- finality ----

  // The auction is over: closed and unclaimed with this row, or claimed for good.
  ghost predicate Finished(s: State, name: Name, row: Bid) {
    row.highBid < 0 && (Row(s, name) == Some(row) || (name !in s.bids && name in s.ledger.accounts))
  }

  lemma FinishedStays(s: State, a: Action, name: Name, row: Bid)
    requires AuctionOk(s) && Lawful(s, a) && Finished(s, name, row)
    ensures Apply(s, a).Ok? ==> Finished(Apply(s, a).value, name, row)
    ensures Apply(s, a).Ok? ==> !BidsOn(a, name)
    ensures !ClosesName(s, a, name)
  {
    hide AuctionOk, Apply, Closes;
    if ClosesName(s, a, name) {
      ClosesOpen(s, name, a.slot, a.now);
    } else if Apply(s, a).Ok? {
      RowEffect(s, a, name);
    }
  }

  lemma {:induction false} FinishedForever(start: State, steps: seq<Action>, m: nat, n: nat, name: Name, row: Bid)
    requires LawfulRun(start, steps) && m <= n <= |steps| && Finished(At(start, steps, m), name, row)
    ensures Finished(At(start, steps, n), name, row)
  {
    hide AuctionOk, Apply, Finished, LawfulRun, Lawful;
    if m < n {
      FinishedForever(start, steps, m, n - 1, name, row);
      LawfulAt(start, steps, n - 1);
      FinishedStays(At(start, steps, n - 1), steps[n - 1], name, row);
    }
  }

  /** Once closed, an auction takes no further bid and is never closed, and so never charged, again. */
  lemma ClosedOnce(start: State, steps: seq<Action>, m: nat, n: nat, name: Name)
    requires LawfulRun(start, steps) && m < n < |steps|
    requires ClosesName(At(start, steps, m), steps[m], name)
    ensures !ClosesName(At(start, steps, n), steps[n], name)
    ensures !(Succeeds(start, steps, n) && BidsOn(steps[n], name))
  {
    hide AuctionOk, Apply, Closes, Finished, LawfulRun, At;
    StartOk(start, steps, m);
    StartOk(start, steps, n);
    var row := ClosingFinishes(At(start, steps, m), steps[m], name);
    StepTaken(start, steps, m);
    FinishedForever(start, steps, m + 1, n, name, row);
    FinishedStays(At(start, steps, n), steps[n], name, row);
  }

  lemma StepTaken(start: State, steps: seq<Action>, n: nat)
    requires Succeeds(start, steps, n)
    ensures At(start, steps, n + 1) == Apply(At(start, steps, n), steps[n]).value
  {}

  lemma ClosingFinishes(s: State, a: Action, name: Name) returns (row: Bid)
    requires AuctionOk(s) && Lawful(s, a) && ClosesName(s, a, name)
    ensures Apply(s, a).Ok? && Finished(Apply(s, a).value, name, row)
  {
    hide AuctionOk, Apply, Closes;
    BlockSucceeds(s, a);
    RowEffect(s, a, name);
    row := s.bids[name].(highBid := -s.bids[name].highBid);
  }

  lemma BlockSucceeds(s: State, a: Action)
    requires AuctionOk(s) && a.Block?
    ensures Apply(s, a).Ok?
  {
    hide AuctionOk, Closes;
    BlockKeeps(s, a.slot, a.now);
  }

  // Step m closed the auction in favour of the bidder.
  ghost predicate WonAt(start: State, steps: seq<Action>, n: nat, name: Name, bidder: Name, m: nat) {
    && m < n <= |steps| && ClosesName(At(start, steps, m), steps[m], name)
    && name in At(start, steps, m).bids && At(start, steps, m).bids[name].highBidder == bidder
  }

  lemma {:induction false} ClosedWasWon(start: State, steps: seq<Action>, n: nat, name: Name)
    requires LawfulRun(start, steps) && start.bids == map[] && n <= |steps|
    requires name in At(start, steps, n).bids && At(start, steps, n).bids[name].highBid < 0
    ensures exists m: nat :: WonAt(start, steps, n, name, At(start, steps, n).bids[name].highBidder, m)
  {
    hide AuctionOk, Apply, LawfulRun, Lawful, ClosesName;
    var s, t, a := At(start, steps, n - 1), At(start, steps, n), steps[n - 1];
    LawfulAt(start, steps, n - 1);
    if Succeeds(start, steps, n - 1) {
      RowEffect(s, a, name);
      if ClosesName(s, a, name) {
        assert WonAt(start, steps, n, name, t.bids[name].highBidder, n - 1);
      }
    }
    if Row(s, name) == Row(t, name) {
      ClosedWasWon(start, steps, n - 1, name);
      var m: nat :| WonAt(start, steps, n - 1, name, s.bids[name].highBidder, m);
      assert WonAt(start, steps, n, name, t.bids[name].highBidder, m);
    }
  }

  lemma {:induction false} SuffixFixed(start: State, steps: seq<Action>, n: nat)
    requires n <= |steps|
    ensures At(start, steps, n).suffix == start.suffix
  {
    hide Biddable, Token.Transfer, HasDot, IsClosing;
    if n > 0 {
      SuffixFixed(start, steps, n - 1);
    }
  }

  ghost predicate Creates(start: State, steps: seq<Action>, n: nat, name: Name) {
    Succeeds(start, steps, n) && steps[n].Creating? && steps[n].newname == name
  }

  /**
   * A premium name created by anyone but the system account went to the winner of its closed auction,
   * whose price had been moved to the fees account.
   */
  lemma PremiumNameWasWon(start: State, steps: seq<Action>, n: nat, name: Name)
    requires LawfulRun(start, steps) && start.bids == map[] && Creates(start, steps, n, name)
    requires steps[n].creator != SYSTEM && start.suffix(name) == name && HasDot(name)
    ensures exists m: nat :: WonAt(start, steps, n, name, steps[n].creator, m)
  {
    hide HasDot, Closes;
    SuffixFixed(start, steps, n);
    ClosedWasWon(start, steps, n, name);
  }

  /** A name is created at most once, so an auction yields at most one account. */
  lemma CreatedOnce(start: State, steps: seq<Action>, m: nat, n: nat, name: Name)
    requires LawfulRun(start, steps) && m < n && Creates(start, steps, m, name)
    ensures !Creates(start, steps, n, name)
  {
    hide AuctionOk, HasDot, Apply, LawfulRun;
    if Creates(start, steps, n, name) {
      var s := At(start, steps, m);
      CustodyRun(start, steps, m);
      Created(s, steps[m]);
      assert At(start, steps, m + 1) == Apply(s, steps[m]).value;
      AccountsStay(start, steps, m + 1, n);
      Created(At(start, steps, n), steps[n]);
    }
  }

  lemma Created(s: State, a: Action)
    requires a.Creating? && Apply(s, a).Ok?
    ensures a.newname !in s.ledger.accounts && a.newname in Apply(s, a).value.ledger.accounts
  {
    hide HasDot;
  }

  lemma {:induction false} AccountsStay(start: State, steps: seq<Action>, m: nat, n: nat)
    requires LawfulRun(start, steps) && m <= n <= |steps|
    ensures At(start, steps, m).ledger.accounts <= At(start, steps, n).ledger.accounts
  {
    hide AuctionOk, Apply, LawfulRun, Lawful, ClosesName, BidsOn, Row;
    if m < n {
      AccountsStay(start, steps, m, n - 1);
      LawfulAt(start, steps, n - 1);
      if Succeeds(start, steps, n - 1) {
        RowEffect(At(start, steps, n - 1), steps[n - 1], 0);
      }
    }
  }

  // ---- pace ----

  // Block slots never go back.
  ghost predicate SlotsInOrder(start: State, steps: seq<Action>) {
    && (forall i :: 0 <= i < |steps| && steps[i].Block? ==> start.lastClose <= steps[i].slot)
    && forall i, j :: 0 <= i < j < |steps| && steps[i].Block? && steps[j].Block? ==> steps[i].slot <= steps[j].slot
  }

  lemma LastCloseEffect(s: State, a: Action)
    requires AuctionOk(s) && Apply(s, a).Ok?
    ensures var t := Apply(s, a).value;
            t.lastClose == s.lastClose || (a.Block? && t.lastClose == a.slot)
  {
    hide AuctionOk, Closes, HasDot, Token.Transfer, Biddable;
    if a.Block? {
      BlockKeeps(s, a.slot, a.now);
      if n :| Closes(s, n, a.slot, a.now) {
      }
    }
  }

  lemma ClosingStamped(s: State, a: Action, name: Name)
    requires AuctionOk(s) && ClosesName(s, a, name)
    ensures Apply(s, a).Ok? && Apply(s, a).value.lastClose == a.slot
  {
    hide AuctionOk, Closes;
    BlockKeeps(s, a.slot, a.now);
  }

  lemma {:induction false} LastCloseBehind(start: State, steps: seq<Action>, n: nat, i: nat)
    requires LawfulRun(start, steps) && SlotsInOrder(start, steps) && n <= i < |steps| && steps[i].Block?
    ensures At(start, steps, n).lastClose <= steps[i].slot
  {
    hide AuctionOk, Apply, LawfulRun, Lawful;
    if n > 0 {
      LastCloseBehind(start, steps, n - 1, i);
      StartOk(start, steps, n - 1);
      if Succeeds(start, steps, n - 1) {
        LastCloseEffect(At(start, steps, n - 1), steps[n - 1]);
      }
    }
  }

  lemma {:induction false} LastCloseGrows(start: State, steps: seq<Action>, m: nat, n: nat)
    requires LawfulRun(start, steps) && SlotsInOrder(start, steps) && m <= n <= |steps|
    ensures At(start, steps, m).lastClose <= At(start, steps, n).lastClose
  {
    hide AuctionOk, Apply, Lawful, LawfulRun, SlotsInOrder;
    if m < n {
      LastCloseGrows(start, steps, m, n - 1);
      StartOk(start, steps, n - 1);
      if steps[n - 1].Block? {
        LastCloseBehind(start, steps, n - 1, n - 1);
      }
      if Succeeds(start, steps, n - 1) {
        LastCloseEffect(At(start, steps, n - 1), steps[n - 1]);
      }
    }
  }

  lemma DayPassed(s: State, n: Name, slot: Slot, now: int)
    requires Closes(s, n, slot, now) && s.lastClose <= slot
    ensures slot > s.lastClose + 172_800
  {
    assert (slot - s.lastClose) % TWO32 == slot - s.lastClose;
  }

  /** Two auctions never close within a day's slots of each other. */
  lemma ClosingsApart(start: State, steps: seq<Action>, m: nat, n: nat, one: Name, other: Name)
    requires LawfulRun(start, steps) && SlotsInOrder(start, steps) && m < n < |steps|
    requires ClosesName(At(start, steps, m), steps[m], one) && ClosesName(At(start, steps, n), steps[n], other)
    ensures steps[n].slot > steps[m].slot + 172_800
  {
    hide AuctionOk, Apply, Closes, LawfulRun, At, Lawful;
    StartOk(start, steps, m);
    ClosingStamped(At(start, steps, m), steps[m], one);
    StepTaken(start, steps, m);
    LastCloseGrows(start, steps, m + 1, n);
    LastCloseBehind(start, steps, n, n);
    DayPassed(At(start, steps, n), other, steps[n].slot, steps[n].now);
  }

  lemma StartOk(start: State, steps: seq<Action>, n: nat)
    requires LawfulRun(start, steps) && n < |steps|
    ensures AuctionOk(At(start, steps, n)) && Lawful(At(start, steps, n), steps[n])
  {
    CustodyRun(start, steps, n);
  }
}
