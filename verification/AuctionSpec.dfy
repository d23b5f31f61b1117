/** Premium-name auctions of flon.system: bids, refunds, closing in onblock, claiming by newaccount. */
module AuctionSpec {
  import opened Common
  import opened Sums
  import Token

  const BLOCKS_PER_DAY: nat := 2 * 24 * 3600
  const MICROSECONDS_PER_DAY: int := 24 * 3600 * 1_000_000

  // A negative highBid is a closed auction waiting to be claimed.
  datatype Bid = Bid(highBidder: Name, highBid: int, lastBidTime: int)

  datatype Claim = Claim(newname: Name, bidder: Name)

  // suffix is name::suffix, the same function for the whole history. lastSchedule and lastClose are
  // block slots; slots count half seconds.
  datatype State = State(
    suffix: Name -> Name,
    bids: map<Name, Bid>,
    refunds: map<Claim, int>,
    lastSchedule: Slot,
    lastClose: Slot,
    ledger: Token.Ledger)

  datatype Error =
    | NotTopLevel
    | NotForBidding
    | AccountExists
    | NotPositive
    | AuctionClosed
    | IncreaseTooSmall
    | AlreadyHighest
    | AssetOverflow
    | RefundNotFound
    | NoAuction
    | NotHighestBidder
    | NotClosedYet
    | WrongSuffix
    | TransferRejected(token: Token.Error)

  // ---- bids ----

  // by_high_bid: the negated bid as an unsigned 64-bit number.
  function HighBidKey(b: Bid): int {
    (-b.highBid) % TWO64
  }

  // The place of a row in the highbid index.
  predicate Before(bids: map<Name, Bid>, m: Name, n: Name)
    requires m in bids && n in bids
  {
    HighBidKey(bids[m]) < HighBidKey(bids[n]) || (HighBidKey(bids[m]) == HighBidKey(bids[n]) && m < n)
  }

  predicate AtBound(bids: map<Name, Bid>, n: Name) {
    n in bids && HighBidKey(bids[n]) >= INT64_MAX
  }

  // What lower_bound(max / 2) on the highbid index points to.
  ghost predicate IsLowerBound(bids: map<Name, Bid>, n: Name) {
    AtBound(bids, n) && forall m :: AtBound(bids, m) && m != n ==> Before(bids, n, m)
  }

  predicate Open(bids: map<Name, Bid>, n: Name) {
    n in bids && bids[n].highBid > 0
  }

  // The largest open bid, the smallest name among equals.
  ghost predicate IsHighest(bids: map<Name, Bid>, n: Name) {
    && Open(bids, n)
    && forall m :: Open(bids, m) && m != n ==>
         bids[m].highBid < bids[n].highBid || (bids[m].highBid == bids[n].highBid && n < m)
  }

  // What the ledger must hold for open auctions and for outbid bidders.
  ghost function OpenBids(bids: map<Name, Bid>): map<Name, int> {
    map n | n in bids :: if bids[n].highBid > 0 then bids[n].highBid else 0
  }

  ghost function Liabilities(s: State): int {
    Sum(OpenBids(s.bids)) + Sum(s.refunds)
  }

  ghost function Slack(s: State): int {
    Token.Balance(s.ledger, NAMES) - Liabilities(s)
  }

  // ---- actions ----

  // Top-level, at most eleven characters, not empty.
  predicate Biddable(newname: Name) {
    newname != 0 && newname % 16 == 0 && newname / 16 % 32 == 0
  }

  predicate IsTopLevel(s: State, newname: Name) {
    s.suffix(newname) == newname
  }

  function Owed(s: State, newname: Name): int
    requires newname in s.bids
  {
    At(s.refunds, Claim(newname, s.bids[newname].highBidder)) + s.bids[newname].highBid
  }

  // The tables after a bid; the tokens move in an inline transfer afterwards.
  function Outbid(s: State, bidder: Name, newname: Name, amount: int, now: int): Result<State, Error> {
    var row := Bid(bidder, amount, now);
    if newname !in s.bids then Ok(s.(bids := s.bids[newname := row]))
    else
      var current := s.bids[newname];
      if current.highBid <= 0 then Err(AuctionClosed)
      else if amount - current.highBid <= current.highBid / 10 then Err(IncreaseTooSmall)
      else if current.highBidder == bidder then Err(AlreadyHighest)
      else if Owed(s, newname) > MAX_ASSET then Err(AssetOverflow)
      else Ok(s.(bids := s.bids[newname := row],
                 refunds := s.refunds[Claim(newname, current.highBidder) := Owed(s, newname)]))
  }

  function Transferred(s: State, from: Name, to: Name, amount: int): Result<State, Error> {
    match Token.Transfer(s.ledger, from, to, amount)
    case Ok(ledger) => Ok(s.(ledger := ledger))
    case Err(e) => Err(TransferRejected(e))
  }

  function BidName(s: State, bidder: Name, newname: Name, amount: int, now: int): Result<State, Error> {
    if !IsTopLevel(s, newname) then Err(NotTopLevel)
    else if !Biddable(newname) then Err(NotForBidding)
    else if newname in s.ledger.accounts then Err(AccountExists)
    else if amount <= 0 then Err(NotPositive)
    else
      match Outbid(s, bidder, newname, amount, now)
      case Err(e) => Err(e)
      case Ok(t) => Transferred(t, bidder, NAMES, amount)
  }

  function BidRefund(s: State, bidder: Name, newname: Name): Result<State, Error> {
    var claim := Claim(newname, bidder);
    if claim !in s.refunds then Err(RefundNotFound)
    else Transferred(s.(refunds := s.refunds - {claim}), NAMES, bidder, s.refunds[claim])
  }

  predicate ScheduleDue(s: State, slot: Slot) {
    (slot - s.lastSchedule) % TWO32 > 120
  }

  predicate CloseDue(s: State, slot: Slot) {
    (slot - s.lastClose) % TWO32 > BLOCKS_PER_DAY
  }

  // The part of onblock that concerns auctions, once elections are active.
  ghost function OnBlock(s: State, slot: Slot, now: int): Result<State, Error> {
    if !ScheduleDue(s, slot) then Ok(s)
    else
      var t := s.(lastSchedule := slot);
      if n :| IsClosing(s, n, slot, now) then Closed(t, n, slot) else Ok(t)
  }

  ghost predicate IsClosing(s: State, n: Name, slot: Slot, now: int) {
    && IsLowerBound(s.bids, n) && CloseDue(s, slot)
    && s.bids[n].highBid > 0 && now - s.bids[n].lastBidTime > MICROSECONDS_PER_DAY
  }

  function Closed(s: State, n: Name, slot: Slot): Result<State, Error>
    requires n in s.bids
  {
    var price := s.bids[n].highBid;
    Transferred(s.(bids := s.bids[n := s.bids[n].(highBid := -price)], lastClose := slot), NAMES, FEES, price)
  }

  // The i-th five-bit character from the right, not counting the thirteenth.
  function Shifted(value: nat, i: nat): nat {
    if i == 0 then value / 16 else Shifted(value, i - 1) / 32
  }

  function Letter(value: nat, i: nat): nat {
    Shifted(value, i) % 32
  }

  // Shorter than twelve characters or with a dot in it.
  predicate HasDot(value: nat) {
    exists i :: 0 <= i < 12 && Letter(value, i) == 0
  }

  // The host rejects existing accounts before the contract sees the action.
  function NewAccount(s: State, creator: Name, newname: Name): Result<State, Error> {
    var t := s.(ledger := s.ledger.(accounts := s.ledger.accounts + {newname}));
    if newname in s.ledger.accounts then Err(AccountExists)
    else if creator == SYSTEM || !HasDot(newname) then Ok(t)
    else if IsTopLevel(s, newname) then
      if newname !in s.bids then Err(NoAuction)
      else if s.bids[newname].highBidder != creator then Err(NotHighestBidder)
      else if s.bids[newname].highBid >= 0 then Err(NotClosedYet)
      else Ok(t.(bids := s.bids - {newname}))
    else if creator != s.suffix(newname) then Err(WrongSuffix)
    else Ok(t)
  }

  datatype Action =
    | Bidding(bidder: Name, newname: Name, amount: int, now: int)
    | Refunding(bidder: Name, newname: Name)
    | Block(slot: Slot, now: int)
    | Creating(creator: Name, newname: Name)
    | Elsewhere(ledger: Token.Ledger)

  ghost function Apply(s: State, a: Action): Result<State, Error> {
    match a
    case Bidding(bidder, newname, amount, now) => BidName(s, bidder, newname, amount, now)
    case Refunding(bidder, newname) => BidRefund(s, bidder, newname)
    case Block(slot, now) => OnBlock(s, slot, now)
    case Creating(creator, newname) => NewAccount(s, creator, newname)
    case Elsewhere(ledger) => Ok(s.(ledger := ledger))
  }

  // Actions are signed by accounts that exist; other token transactions do not take from the names account.
  ghost predicate Lawful(s: State, a: Action) {
    match a
    case Bidding(bidder, _, _, _) => bidder in s.ledger.accounts
    case Elsewhere(ledger) =>
      && Token.LedgerOk(ledger) && ledger.accounts == s.ledger.accounts
      && Token.Balance(ledger, NAMES) >= Token.Balance(s.ledger, NAMES)
    case _ => true
  }

  // ---- invariant ----

  ghost predicate BidOk(s: State, n: Name) {
    n in s.bids ==>
      && s.bids[n].highBid != 0 && -MAX_ASSET <= s.bids[n].highBid <= MAX_ASSET
      && s.bids[n].highBidder in s.ledger.accounts && s.bids[n].highBidder != NAMES
  }

  ghost predicate RefundOk(s: State, c: Claim) {
    c in s.refunds ==> s.refunds[c] > 0 && c.bidder in s.ledger.accounts && c.bidder != NAMES
  }

  ghost predicate AuctionOk(s: State) {
    && Token.LedgerOk(s.ledger)
    && {NAMES, FEES} <= s.ledger.accounts
    && (forall n :: BidOk(s, n)) && (forall c :: RefundOk(s, c))
    && Slack(s) >= 0
  }
}
