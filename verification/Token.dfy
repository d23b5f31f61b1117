/** flon.token for the core symbol: supply and balance rows, and why the ledger always adds up. */
module Token {
  import opened Common
  import opened Sums

  datatype Ledger = Ledger(accounts: set<Name>, issuer: Name, maxSupply: int, supply: int, balances: map<Name, int>)

  datatype Error =
    | SelfTransfer
    | UnknownAccount
    | InvalidQuantity
    | NotPositive
    | NoBalance
    | Overdrawn
    | AssetOverflow
    | NotIssuer
    | ExceedsMaxSupply
    | BalanceNotZero

  function Balance(l: Ledger, owner: Name): int {
    if owner in l.balances then l.balances[owner] else 0
  }

  function SubBalance(l: Ledger, owner: Name, amount: int): Result<Ledger, Error> {
    if owner !in l.balances then Err(NoBalance)
    else if l.balances[owner] < amount then Err(Overdrawn)
    else Ok(l.(balances := l.balances[owner := l.balances[owner] - amount]))
  }

  function AddBalance(l: Ledger, owner: Name, amount: int): Result<Ledger, Error> {
    if Balance(l, owner) + amount > MAX_ASSET then Err(AssetOverflow)
    else Ok(l.(balances := l.balances[owner := Balance(l, owner) + amount]))
  }

  function Transfer(l: Ledger, from: Name, to: Name, amount: int): Result<Ledger, Error> {
    if from == to then Err(SelfTransfer)
    else if to !in l.accounts then Err(UnknownAccount)
    else if amount > MAX_ASSET then Err(InvalidQuantity)
    else if amount <= 0 then Err(NotPositive)
    else
      match SubBalance(l, from, amount)
      case Err(e) => Err(e)
      case Ok(debited) => AddBalance(debited, to, amount)
  }

  function Issue(l: Ledger, to: Name, amount: int): Result<Ledger, Error> {
    if to != l.issuer then Err(NotIssuer)
    else if amount > MAX_ASSET then Err(InvalidQuantity)
    else if amount <= 0 then Err(NotPositive)
    else if amount > l.maxSupply - l.supply then Err(ExceedsMaxSupply)
    else AddBalance(l.(supply := l.supply + amount), l.issuer, amount)
  }

  function Retire(l: Ledger, amount: int): Result<Ledger, Error> {
    if amount > MAX_ASSET then Err(InvalidQuantity)
    else if amount <= 0 then Err(NotPositive)
    else SubBalance(l.(supply := l.supply - amount), l.issuer, amount)
  }

  function Open(l: Ledger, owner: Name): Result<Ledger, Error> {
    if owner !in l.accounts then Err(UnknownAccount)
    else Ok(l.(balances := l.balances[owner := Balance(l, owner)]))
  }

  function Close(l: Ledger, owner: Name): Result<Ledger, Error> {
    if owner !in l.balances then Err(NoBalance)
    else if l.balances[owner] != 0 then Err(BalanceNotZero)
    else Ok(l.(balances := l.balances - {owner}))
  }

  // ---- the ledger identity ----

  ghost predicate LedgerOk(l: Ledger) {
    && (forall a :: a in l.balances ==> l.balances[a] >= 0)
    && Sum(l.balances) == l.supply <= l.maxSupply <= MAX_ASSET
  }

  lemma BalanceWithinSupply(l: Ledger, owner: Name)
    requires LedgerOk(l)
    ensures 0 <= Balance(l, owner) <= l.supply
  {
    SumNonNegative(l.balances);
    if owner in l.balances {
      SumTerm(l.balances, owner);
    }
  }

  lemma TwoBalances(l: Ledger, a: Name, b: Name)
    requires LedgerOk(l) && a != b
    ensures Balance(l, a) + Balance(l, b) <= l.supply
  {
    BalanceWithinSupply(l, a);
    BalanceWithinSupply(l, b);
    if a in l.balances && b in l.balances {
      SumRemove(l.balances, a);
      SumTerm(l.balances - {a}, b);
    }
  }

  /**
   * A transfer succeeds exactly when the sender has the money, moves it to the receiver and nobody
   * else, and keeps the ledger balanced; the receiver's overflow check never fires.
   */
  lemma TransferLedger(l: Ledger, from: Name, to: Name, amount: int)
    requires LedgerOk(l)
    ensures Transfer(l, from, to, amount).Ok? <==>
              from != to && to in l.accounts && 0 < amount <= Balance(l, from)
    ensures Transfer(l, from, to, amount).Ok? ==>
              var m := Transfer(l, from, to, amount).value;
              && LedgerOk(m)
              && m == l.(balances := m.balances)
              && forall a :: Balance(m, a) ==
                   Balance(l, a) - (if a == from then amount else 0) + (if a == to then amount else 0)
  {
    if from != to {
      BalanceWithinSupply(l, from);
      TwoBalances(l, from, to);
      if from in l.balances {
        var debited := l.balances[from := l.balances[from] - amount];
        SumUpdate(l.balances, from, l.balances[from] - amount);
        SumUpdate(debited, to, Balance(l, to) + amount);
      }
    }
  }

  lemma IssueLedger(l: Ledger, to: Name, amount: int)
    requires LedgerOk(l)
    ensures Issue(l, to, amount).Ok? <==> to == l.issuer && 0 < amount <= l.maxSupply - l.supply
    ensures Issue(l, to, amount).Ok? ==>
              var m := Issue(l, to, amount).value;
              && LedgerOk(m)
              && m == l.(supply := l.supply + amount, balances := m.balances)
              && forall a :: Balance(m, a) == Balance(l, a) + if a == to then amount else 0
  {
    BalanceWithinSupply(l, l.issuer);
    SumUpdate(l.balances, l.issuer, Balance(l, l.issuer) + amount);
  }

  lemma RetireLedger(l: Ledger, amount: int)
    requires LedgerOk(l)
    ensures Retire(l, amount).Ok? <==> 0 < amount <= Balance(l, l.issuer)
    ensures Retire(l, amount).Ok? ==>
              var m := Retire(l, amount).value;
              && LedgerOk(m)
              && m == l.(supply := l.supply - amount, balances := m.balances)
              && forall a :: Balance(m, a) == Balance(l, a) - if a == l.issuer then amount else 0
  {
    BalanceWithinSupply(l, l.issuer);
    if l.issuer in l.balances {
      SumUpdate(l.balances, l.issuer, l.balances[l.issuer] - amount);
    }
  }

  /** Rows open for existing accounts and close when empty; no balance changes. */
  lemma OpenCloseLedger(l: Ledger, owner: Name)
    requires LedgerOk(l)
    ensures Open(l, owner).Ok? <==> owner in l.accounts
    ensures Close(l, owner).Ok? <==> owner in l.balances && Balance(l, owner) == 0
    ensures Open(l, owner).Ok? ==> Open(l, owner).value.balances.Keys == l.balances.Keys + {owner}
    ensures Close(l, owner).Ok? ==> Close(l, owner).value.balances.Keys == l.balances.Keys - {owner}
    ensures Open(l, owner).Ok? ==>
              LedgerOk(Open(l, owner).value) && forall a :: Balance(Open(l, owner).value, a) == Balance(l, a)
    ensures Close(l, owner).Ok? ==>
              LedgerOk(Close(l, owner).value) && forall a :: Balance(Close(l, owner).value, a) == Balance(l, a)
  {
    SumUpdate(l.balances, owner, Balance(l, owner));
    if owner in l.balances {
      SumRemove(l.balances, owner);
    }
  }

  /** The token contract's rows, updated in place. */
  class TokenContract {
    var accounts: set<Name>
    const issuer: Name
    const maxSupply: int
    var supply: int
    var balances: map<Name, int>

    ghost function Tables(): Ledger
      reads this
    {
      Ledger(accounts, issuer, maxSupply, supply, balances)
    }

    /** create, with its checks on the maximum supply. */
    constructor (accounts: set<Name>, issuer: Name, maxSupply: int)
      requires 0 < maxSupply <= MAX_ASSET
      ensures Tables() == Ledger(accounts, issuer, maxSupply, 0, map[]) && LedgerOk(Tables())
    {
      this.accounts, this.issuer, this.maxSupply := accounts, issuer, maxSupply;
      supply, balances := 0, map[];
    }

    method SubtractBalance(owner: Name, amount: int) returns (ok: bool)
      modifies this`balances
      ensures ok <==> SubBalance(old(Tables()), owner, amount).Ok?
      ensures Tables() == if ok then SubBalance(old(Tables()), owner, amount).value else old(Tables())
    {
      ok := owner in balances && balances[owner] >= amount;
      if ok {
        balances := balances[owner := balances[owner] - amount];
      }
    }

    method CreditBalance(owner: Name, amount: int) returns (ok: bool)
      modifies this`balances
      ensures ok <==> AddBalance(old(Tables()), owner, amount).Ok?
      ensures Tables() == if ok then AddBalance(old(Tables()), owner, amount).value else old(Tables())
    {
      if owner !in balances {
        ok := amount <= MAX_ASSET;
        if ok {
          balances := balances[owner := amount];
        }
      } else {
        ok := balances[owner] + amount <= MAX_ASSET;
        if ok {
          balances := balances[owner := balances[owner] + amount];
        }
      }
    }

    method TransferTokens(from: Name, to: Name, amount: int) returns (ok: bool)
      modifies this`balances
      ensures ok <==> Transfer(old(Tables()), from, to, amount).Ok?
      ensures Tables() == if ok then Transfer(old(Tables()), from, to, amount).value else old(Tables())
    {
      if from == to || to !in accounts || amount > MAX_ASSET || amount <= 0 {
        return false;
      }
      var saved := balances;
      ok := SubtractBalance(from, amount);
      if ok {
        ok := CreditBalance(to, amount);
        if !ok {
          balances := saved;
        }
      }
    }

    method IssueTokens(to: Name, amount: int) returns (ok: bool)
      modifies this
      ensures ok <==> Issue(old(Tables()), to, amount).Ok?
      ensures Tables() == if ok then Issue(old(Tables()), to, amount).value else old(Tables())
    {
      if to != issuer || amount > MAX_ASSET || amount <= 0 || amount > maxSupply - supply {
        return false;
      }
      supply := supply + amount;
      ok := CreditBalance(issuer, amount);
      if !ok {
        supply := supply - amount;
      }
    }

    method RetireTokens(amount: int) returns (ok: bool)
      modifies this
      ensures ok <==> Retire(old(Tables()), amount).Ok?
      ensures Tables() == if ok then Retire(old(Tables()), amount).value else old(Tables())
    {
      if amount > MAX_ASSET || amount <= 0 {
        return false;
      }
      supply := supply - amount;
      ok := SubtractBalance(issuer, amount);
      if !ok {
        supply := supply + amount;
      }
    }
  }
}
