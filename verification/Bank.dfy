/**
 The bank that x/dao and x/dnsblockchain call. The SDK's bank module is not part
 of the repository; this is the part of it that the two modules rely on:
 balances, supply, and failure on missing funds or on a blocked recipient.
 */
module Bank {
  import opened Wrappers
  import opened MapTotals

  /** Denominations, numbered. */
  type Denom = nat

  /** sdk.Coins: amounts by denomination; those that Validate accepts are positive. */
  type Coins = map<Denom, int>

  datatype ModuleName =
    | FeeCollector | Distribution | Mint | BondedPool | NotBondedPool | Nft
    | Gov | Dao | DnsBlockchain | OtherModule(id: nat)

  datatype Account = User(id: nat) | Module(name: ModuleName)

  /** app/app_config.go: the accounts that may not receive coins. */
  const BLOCKED := {FeeCollector, Distribution, Mint, BondedPool, NotBondedPool, Nft}

  predicate IsBlocked(a: Account) {
    a.Module? && a.name in BLOCKED
  }

  /** Six module accounts are refused; users, the two modules' own accounts and governance are not. */
  lemma WhoIsBlocked(a: Account)
    ensures
      match a
      case User(_) => !IsBlocked(a)
      case Module(FeeCollector) => IsBlocked(a)
      case Module(Distribution) => IsBlocked(a)
      case Module(Mint) => IsBlocked(a)
      case Module(BondedPool) => IsBlocked(a)
      case Module(NotBondedPool) => IsBlocked(a)
      case Module(Nft) => IsBlocked(a)
      case Module(_) => !IsBlocked(a)
  {
  }

  const DAO := Module(Dao)
  const DNS := Module(DnsBlockchain)

  datatype BankError = InsufficientFunds | BlockedRecipient

  datatype BankState = BankState(balances: map<Account, Coins>, supply: Coins)

  // ---------- coins ----------

  function AmountOf(c: Coins, d: Denom): int {
    if d in c then c[d] else 0
  }

  predicate ValidCoins(c: Coins) {
    forall d <- c :: c[d] > 0
  }

  predicate IsZero(c: Coins) {
    forall d <- c :: c[d] == 0
  }

  function Plus(x: Coins, y: Coins): Coins {
    map d | d in x.Keys + y.Keys :: AmountOf(x, d) + AmountOf(y, d)
  }

  function Minus(x: Coins, y: Coins): Coins {
    map d | d in x.Keys + y.Keys :: AmountOf(x, d) - AmountOf(y, d)
  }

  predicate Covers(x: Coins, y: Coins) {
    forall d <- y :: AmountOf(x, d) >= y[d]
  }

  // ---------- operations ----------

  function BalanceOf(b: BankState, a: Account): Coins {
    if a in b.balances then b.balances[a] else map[]
  }

  function Balance(b: BankState, a: Account, d: Denom): int {
    AmountOf(BalanceOf(b, a), d)
  }

  function Supply(b: BankState, d: Denom): int {
    AmountOf(b.supply, d)
  }

  function Credit(b: BankState, a: Account, c: Coins): BankState {
    b.(balances := b.balances[a := Plus(BalanceOf(b, a), c)])
  }

  function Debit(b: BankState, a: Account, c: Coins): BankState {
    b.(balances := b.balances[a := Minus(BalanceOf(b, a), c)])
  }

  function Send(b: BankState, from: Account, to: Account, c: Coins): Result<BankState, BankError> {
    if Covers(BalanceOf(b, from), c) then Ok(Credit(Debit(b, from, c), to, c))
    else Err(InsufficientFunds)
  }

  /** SendCoinsFromModuleToAccount and MsgSend: only these check the recipient. */
  function SendToAccount(b: BankState, from: Account, to: Account, c: Coins): Result<BankState, BankError> {
    if IsBlocked(to) then Err(BlockedRecipient) else Send(b, from, to, c)
  }

  function MintTo(b: BankState, a: Account, c: Coins): BankState {
    Credit(b, a, c).(supply := Plus(b.supply, c))
  }

  function BurnFrom(b: BankState, a: Account, c: Coins): Result<BankState, BankError> {
    if Covers(BalanceOf(b, a), c) then Ok(Debit(b, a, c).(supply := Minus(b.supply, c)))
    else Err(InsufficientFunds)
  }

  // ---------- what they do to balances ----------

  lemma CreditBalance(b: BankState, a: Account, c: Coins, x: Account, d: Denom)
    ensures Balance(Credit(b, a, c), x, d) == Balance(b, x, d) + (if x == a then AmountOf(c, d) else 0)
  {
  }

  lemma DebitBalance(b: BankState, a: Account, c: Coins, x: Account, d: Denom)
    ensures Balance(Debit(b, a, c), x, d) == Balance(b, x, d) - (if x == a then AmountOf(c, d) else 0)
  {
  }

  /** A transfer moves exactly c; sending to oneself changes nothing. */
  lemma SendBalance(b: BankState, from: Account, to: Account, c: Coins, x: Account, d: Denom)
    requires Send(b, from, to, c).Ok?
    ensures
      var b' := Send(b, from, to, c).value;
      && Supply(b', d) == Supply(b, d)
      && Balance(b', x, d) ==
           Balance(b, x, d) - (if x == from then AmountOf(c, d) else 0) + (if x == to then AmountOf(c, d) else 0)
  {
    DebitBalance(b, from, c, x, d);
    CreditBalance(Debit(b, from, c), to, c, x, d);
  }

  lemma MintBalance(b: BankState, a: Account, c: Coins, x: Account, d: Denom)
    ensures
      var b' := MintTo(b, a, c);
      && Supply(b', d) == Supply(b, d) + AmountOf(c, d)
      && Balance(b', x, d) == Balance(b, x, d) + (if x == a then AmountOf(c, d) else 0)
  {
    CreditBalance(b, a, c, x, d);
  }

  lemma BurnBalance(b: BankState, a: Account, c: Coins, x: Account, d: Denom)
    requires BurnFrom(b, a, c).Ok?
    ensures
      var b' := BurnFrom(b, a, c).value;
      && Supply(b', d) == Supply(b, d) - AmountOf(c, d)
      && Balance(b', x, d) == Balance(b, x, d) - (if x == a then AmountOf(c, d) else 0)
  {
    DebitBalance(b, a, c, x, d);
  }

  // ---------- conservation ----------

  /** The amounts of one denomination, account by account. */
  function Column(b: BankState, d: Denom): map<Account, int> {
    map a | a in b.balances :: Balance(b, a, d)
  }

  /** No balance is negative and the supply is the sum of the balances. */
  ghost predicate Sound(b: BankState) {
    && (forall a, d :: Balance(b, a, d) >= 0)
    && (forall d :: Supply(b, d) == Total(Column(b, d)))
  }

  lemma ColumnUpdate(b: BankState, a: Account, c: Coins, d: Denom)
    ensures
      var b' := b.(balances := b.balances[a := c]);
      Total(Column(b', d)) == Total(Column(b, d)) + AmountOf(c, d) - Balance(b, a, d)
  {
    var b' := b.(balances := b.balances[a := c]);
    assert Column(b', d) == Column(b, d)[a := AmountOf(c, d)];
    TotalInsert(Column(b, d), a, AmountOf(c, d));
  }

  lemma CreditColumn(b: BankState, a: Account, c: Coins, d: Denom)
    ensures Total(Column(Credit(b, a, c), d)) == Total(Column(b, d)) + AmountOf(c, d)
  {
    ColumnUpdate(b, a, Plus(BalanceOf(b, a), c), d);
  }

  lemma DebitColumn(b: BankState, a: Account, c: Coins, d: Denom)
    ensures Total(Column(Debit(b, a, c), d)) == Total(Column(b, d)) - AmountOf(c, d)
  {
    ColumnUpdate(b, a, Minus(BalanceOf(b, a), c), d);
  }

  lemma SendKeepsSound(b: BankState, from: Account, to: Account, c: Coins)
    requires Sound(b) && ValidCoins(c) && Send(b, from, to, c).Ok?
    ensures Sound(Send(b, from, to, c).value)
  {
    var b1, b2 := Debit(b, from, c), Send(b, from, to, c).value;
    forall a, d ensures Balance(b2, a, d) >= 0 {
      SendBalance(b, from, to, c, a, d);
      assert Balance(b, a, d) >= 0;
    }
    forall d ensures Supply(b2, d) == Total(Column(b2, d)) {
      DebitColumn(b, from, c, d);
      CreditColumn(b1, to, c, d);
      assert Supply(b, d) == Total(Column(b, d));
    }
  }

  lemma MintKeepsSound(b: BankState, a: Account, c: Coins)
    requires Sound(b) && ValidCoins(c)
    ensures Sound(MintTo(b, a, c))
  {
    var b' := MintTo(b, a, c);
    forall x, d ensures Balance(b', x, d) >= 0 {
      MintBalance(b, a, c, x, d);
      assert Balance(b, x, d) >= 0;
    }
    forall d ensures Supply(b', d) == Total(Column(b', d)) {
      CreditColumn(b, a, c, d);
      assert Column(b', d) == Column(Credit(b, a, c), d);
      assert Supply(b, d) == Total(Column(b, d));
    }
  }

  lemma BurnKeepsSound(b: BankState, a: Account, c: Coins)
    requires Sound(b) && ValidCoins(c) && BurnFrom(b, a, c).Ok?
    ensures Sound(BurnFrom(b, a, c).value)
  {
    var b' := BurnFrom(b, a, c).value;
    forall x, d ensures Balance(b', x, d) >= 0 {
      BurnBalance(b, a, c, x, d);
      assert Balance(b, x, d) >= 0;
    }
    forall d ensures Supply(b', d) == Total(Column(b', d)) {
      DebitColumn(b, a, c, d);
      assert Column(b', d) == Column(Debit(b, a, c), d);
      assert Supply(b, d) == Total(Column(b, d));
    }
  }

  lemma SupplyNonNegative(b: BankState, d: Denom)
    requires Sound(b)
    ensures Supply(b, d) >= 0
  {
    var column := Column(b, d);
    forall a | a in column ensures column[a] >= 0 {
      assert Balance(b, a, d) >= 0;
    }
    TotalNonNegative(column);
    assert Supply(b, d) == Total(column);
  }

  // ---------- the keeper object ----------

  class BankKeeper {
    var state: BankState

    constructor (genesis: BankState)
      ensures state == genesis
    {
      state := genesis;
    }

    method SendCoins(from: Account, to: Account, amt: Coins) returns (err: Option<BankError>)
      modifies this
      ensures
        match Send(old(state), from, to, amt)
        case Ok(b) => err == None && state == b
        case Err(e) => err == Some(e) && state == old(state)
    {
      var r := Send(state, from, to, amt);
      if r.Err? {
        return Some(r.error);
      }
      state := r.value;
      return None;
    }

    method SendCoinsToAccount(from: Account, to: Account, amt: Coins) returns (err: Option<BankError>)
      modifies this
      ensures
        match SendToAccount(old(state), from, to, amt)
        case Ok(b) => err == None && state == b
        case Err(e) => err == Some(e) && state == old(state)
    {
      if IsBlocked(to) {
        return Some(BlockedRecipient);
      }
      err := SendCoins(from, to, amt);
    }

    method MintCoins(a: Account, amt: Coins)
      modifies this
      ensures state == MintTo(old(state), a, amt)
    {
      state := MintTo(state, a, amt);
    }

    method BurnCoins(a: Account, amt: Coins) returns (err: Option<BankError>)
      modifies this
      ensures
        match BurnFrom(old(state), a, amt)
        case Ok(b) => err == None && state == b
        case Err(e) => err == Some(e) && state == old(state)
    {
      var r := BurnFrom(state, a, amt);
      if r.Err? {
        return Some(r.error);
      }
      state := r.value;
      return None;
    }
  }
}
