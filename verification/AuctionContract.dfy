/** The auction actions as the contract runs them, over its tables and the token contract. */
module AuctionContract {
  import opened Common
  import opened AuctionSpec
  import opened AuctionProofs
  import Token

  /** The bit loop of newaccount. */
  method NameHasDot(value: nat) returns (hasDot: bool)
    ensures hasDot <==> HasDot(value)
  {
    var tmp := value / 16;
    hasDot := false;
    for i := 0 to 12
      invariant tmp == Shifted(value, i)
      invariant hasDot <==> exists j :: 0 <= j < i && Letter(value, j) == 0
    {
      assert Letter(value, i) == tmp % 32;
      hasDot := hasDot || tmp % 32 == 0;
      tmp := tmp / 32;
    }
  }

  /** A name that can be bid on can only be created by claiming its auction. */
  lemma BiddableNeedsAuction(newname: Name)
    requires Biddable(newname)
    ensures HasDot(newname)
  {
    assert Letter(newname, 0) == 0;
  }

  class NameAuctions {
    const suffix: Name -> Name
    const token: Token.TokenContract
    var bids: map<Name, Bid>
    var refunds: map<Claim, int>
    var lastSchedule: Slot
    var lastClose: Slot

    ghost function Tables(): State
      reads this, token
    {
      State(suffix, bids, refunds, lastSchedule, lastClose, token.Tables())
    }

    constructor (suffix: Name -> Name, token: Token.TokenContract)
      ensures this.token == token && Tables() == State(suffix, map[], map[], 0, 0, token.Tables())
    {
      this.suffix, this.token := suffix, token;
      bids, refunds := map[], map[];
      lastSchedule, lastClose := 0, 0;
    }

    method PlaceBid(bidder: Name, newname: Name, amount: int, now: int) returns (ok: bool)
      modifies this, token`balances
      ensures ok <==> BidName(old(Tables()), bidder, newname, amount, now).Ok?
      ensures Tables() == if ok then BidName(old(Tables()), bidder, newname, amount, now).value else old(Tables())
    {
      ok := false;
      if suffix(newname) != newname || newname == 0 || newname % 16 != 0 || newname / 16 % 32 != 0 {
        return;
      }
      if newname in token.accounts || amount <= 0 {
        return;
      }
      var savedBids, savedRefunds := bids, refunds;
      if newname !in bids {
        bids := bids[newname := Bid(bidder, amount, now)];
      } else {
        var current := bids[newname];
        if current.highBid <= 0 || amount - current.highBid <= current.highBid / 10 || current.highBidder == bidder {
          return;
        }
        var claim := Claim(newname, current.highBidder);
        var owed := current.highBid;
        if claim in refunds {
          owed := refunds[claim] + current.highBid;
        }
        if owed > MAX_ASSET {
          return;
        }
        refunds := refunds[claim := owed];
        bids := bids[newname := Bid(bidder, amount, now)];
      }
      ok := token.TransferTokens(bidder, NAMES, amount);
      if !ok {
        bids, refunds := savedBids, savedRefunds;
      }
    }

    method RefundBid(bidder: Name, newname: Name) returns (ok: bool)
      modifies this, token`balances
      ensures ok <==> BidRefund(old(Tables()), bidder, newname).Ok?
      ensures Tables() == if ok then BidRefund(old(Tables()), bidder, newname).value else old(Tables())
    {
      var claim := Claim(newname, bidder);
      if claim !in refunds {
        return false;
      }
      var saved := refunds;
      refunds := refunds - {claim};
      ok := token.TransferTokens(NAMES, bidder, saved[claim]);
      if !ok {
        refunds := saved;
      }
    }

    /** lower_bound(max / 2) on the highbid index. */
    method LowerBound() returns (found: Option<Name>)
      ensures found.Some? ==> IsLowerBound(bids, found.value)
      ensures found.None? ==> forall m :: !AtBound(bids, m)
    {
      found := None;
      var rest := bids.Keys;
      while rest != {}
        invariant rest <= bids.Keys
        invariant found.Some? ==> AtBound(bids, found.value) && found.value !in rest
        invariant found.Some? ==> forall m :: AtBound(bids, m) && m !in rest && m != found.value ==>
                    Before(bids, found.value, m)
        invariant found.None? ==> forall m :: AtBound(bids, m) ==> m in rest
        decreases rest
      {
        var m :| m in rest;
        rest := rest - {m};
        if AtBound(bids, m) && (found.None? || Before(bids, m, found.value)) {
          found := Some(m);
        }
      }
    }

    /** The auction part of onblock; `closed` is the auction that it closes. */
    method CloseHighest(slot: Slot, now: int) returns (ok: bool, closed: Option<Name>)
      modifies this, token`balances
      ensures ok <==> OnBlock(old(Tables()), slot, now).Ok?
      ensures Tables() == if ok then OnBlock(old(Tables()), slot, now).value else old(Tables())
      ensures closed.Some? ==> ok && old(IsClosing(Tables(), closed.value, slot, now))
    {
      ok, closed := true, None;
      if (slot - lastSchedule) % TWO32 <= 120 {
        return;
      }
      ghost var s := Tables();
      var savedSchedule, savedClose, savedBids := lastSchedule, lastClose, bids;
      lastSchedule := slot;
      if (slot - lastClose) % TWO32 <= BLOCKS_PER_DAY {
        return;
      }
      var highest := LowerBound();
      forall m, n | IsLowerBound(bids, m) && IsLowerBound(bids, n) ensures m == n {
        LowerBoundUnique(bids, m, n);
      }
      if highest.Some? && bids[highest.value].highBid > 0
        && now - bids[highest.value].lastBidTime > MICROSECONDS_PER_DAY {
        var n, price := highest.value, bids[highest.value].highBid;
        assert IsClosing(s, n, slot, now);
        bids := bids[n := bids[n].(highBid := -price)];
        lastClose := slot;
        ok := token.TransferTokens(NAMES, FEES, price);
        if ok {
          closed := Some(n);
        } else {
          lastSchedule, lastClose, bids := savedSchedule, savedClose, savedBids;
        }
      }
    }

    method CreateAccount(creator: Name, newname: Name) returns (ok: bool)
      modifies this, token`accounts
      ensures ok <==> NewAccount(old(Tables()), creator, newname).Ok?
      ensures Tables() == if ok then NewAccount(old(Tables()), creator, newname).value else old(Tables())
    {
      if newname in token.accounts {
        return false;
      }
      if creator != SYSTEM {
        var hasDot := NameHasDot(newname);
        if hasDot {
          if suffix(newname) == newname {
            if newname !in bids || bids[newname].highBidder != creator || bids[newname].highBid >= 0 {
              return false;
            }
            bids := bids - {newname};
          } else if creator != suffix(newname) {
            return false;
          }
        }
      }
      token.accounts := token.accounts + {newname};
      ok := true;
    }
  }
}
