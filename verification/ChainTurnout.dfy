/**
 Turnout against the snapshot it is measured by. Before the first grant a vote
 weighs the voter's balance at that moment, so coins that move after they voted
 can vote again; as long as none does, the turnout stays within the supply that
 the proposal recorded.
 */
module ChainTurnout {
  import opened MapTotals
  import opened Bank
  import opened Environment
  import opened Walks
  import opened DaoTypes
  import opened Dao
  import opened DaoInvariant
  import opened DaoMessages
  import opened DaoSettlement
  import opened DaoOutcome
  import opened Chain
  import Registry
  import DaoVoting
  import Names

  /** The power counted so far. */
  ghost function Voted(s: DaoState, id: nat): int {
    Total(Turnout(s.votes, id))
  }

  ghost function Voters(s: DaoState, id: nat): set<Account> {
    set k | k in s.votes && k.proposal == id :: k.voter
  }

  // ---------- coins that users can still vote with ----------

  /** n, if the account is a user's and not among the spent ones. */
  function Unspent(a: Account, spent: set<Account>, n: int): int {
    if a.User? && a !in spent then n else 0
  }

  function FreeColumn(b: BankState, spent: set<Account>, d: Denom): map<Account, int> {
    map a | a in b.balances :: Unspent(a, spent, Balance(b, a, d))
  }

  ghost function Free(b: BankState, spent: set<Account>, d: Denom): int {
    Total(FreeColumn(b, spent, d))
  }

  lemma FreeUpdate(b: BankState, a: Account, c: Coins, spent: set<Account>, d: Denom)
    ensures
      Free(b.(balances := b.balances[a := c]), spent, d) ==
        Free(b, spent, d) + Unspent(a, spent, AmountOf(c, d) - Balance(b, a, d))
  {
    var b', n := b.(balances := b.balances[a := c]), Unspent(a, spent, AmountOf(c, d));
    assert FreeColumn(b', spent, d) == FreeColumn(b, spent, d)[a := n];
    TotalInsert(FreeColumn(b, spent, d), a, n);
  }

  lemma FreeCredit(b: BankState, a: Account, c: Coins, spent: set<Account>, d: Denom)
    ensures Free(Credit(b, a, c), spent, d) == Free(b, spent, d) + Unspent(a, spent, AmountOf(c, d))
  {
    FreeUpdate(b, a, Plus(BalanceOf(b, a), c), spent, d);
  }

  lemma FreeDebit(b: BankState, a: Account, c: Coins, spent: set<Account>, d: Denom)
    ensures Free(Debit(b, a, c), spent, d) == Free(b, spent, d) - Unspent(a, spent, AmountOf(c, d))
  {
    FreeUpdate(b, a, Minus(BalanceOf(b, a), c), spent, d);
  }

  lemma FreeSend(b: BankState, from: Account, to: Account, c: Coins, spent: set<Account>, d: Denom)
    requires Send(b, from, to, c).Ok?
    ensures
      Free(Send(b, from, to, c).value, spent, d) ==
        Free(b, spent, d) - Unspent(from, spent, AmountOf(c, d)) + Unspent(to, spent, AmountOf(c, d))
  {
    FreeDebit(b, from, c, spent, d);
    FreeCredit(Debit(b, from, c), to, c, spent, d);
  }

  lemma FreeSupply(b: BankState, supply: Coins, spent: set<Account>, d: Denom)
    ensures Free(b.(supply := supply), spent, d) == Free(b, spent, d)
  {
    assert FreeColumn(b.(supply := supply), spent, d) == FreeColumn(b, spent, d);
  }

  lemma FreeMint(b: BankState, a: Account, c: Coins, spent: set<Account>, d: Denom)
    ensures Free(MintTo(b, a, c), spent, d) == Free(b, spent, d) + Unspent(a, spent, AmountOf(c, d))
  {
    FreeCredit(b, a, c, spent, d);
    FreeSupply(Credit(b, a, c), Plus(b.supply, c), spent, d);
  }

  lemma FreeBurn(b: BankState, a: Account, c: Coins, spent: set<Account>, d: Denom)
    requires BurnFrom(b, a, c).Ok?
    ensures Free(BurnFrom(b, a, c).value, spent, d) == Free(b, spent, d) - Unspent(a, spent, AmountOf(c, d))
  {
    FreeDebit(b, a, c, spent, d);
    FreeSupply(Debit(b, a, c), Minus(b.supply, c), spent, d);
  }

  lemma FreeWithout(b: BankState, spent: set<Account>, a: Account, d: Denom)
    ensures Free(b, spent + {a}, d) == Free(b, spent, d) - Unspent(a, spent, Balance(b, a, d))
  {
    var f, f' := FreeColumn(b, spent, d), FreeColumn(b, spent + {a}, d);
    if a in b.balances {
      assert f' == f[a := 0];
      TotalInsert(f, a, 0);
    } else {
      assert f' == f;
    }
  }

  /** What users hold and what the module holds add up to no more than the supply. */
  lemma FreeBounds(b: BankState, spent: set<Account>, d: Denom)
    requires Sound(b)
    ensures 0 <= Free(b, spent, d) <= Supply(b, d) - Balance(b, DAO, d)
  {
    var f, column := FreeColumn(b, spent, d), Column(b, d);
    forall a ensures Balance(b, a, d) >= 0 {
    }
    TotalNonNegative(f);
    if DAO in b.balances {
      TotalInsert(column, DAO, 0);
      TotalMonotone(f, column[DAO := 0]);
    } else {
      TotalMonotone(f, column);
    }
    assert Supply(b, d) == Total(column);
  }

  lemma FreeAtLeast(b: BankState, a: Account, d: Denom)
    requires Sound(b) && a.User?
    ensures Balance(b, a, d) <= Free(b, {}, d)
  {
    var f := FreeColumn(b, {}, d);
    forall x | x in f ensures f[x] >= 0 {
      assert Balance(b, x, d) >= 0;
    }
    if a in b.balances {
      TotalAtLeast(f, a);
    } else {
      TotalNonNegative(f);
    }
  }

  lemma FreeOfPoor(b: BankState, d: Denom)
    requires forall a: Account :: a.User? ==> Balance(b, a, d) == 0
    ensures Free(b, {}, d) == 0
  {
    TotalOfZeros(FreeColumn(b, {}, d));
  }

  // ---------- deposits that may come back to them ----------

  function OwedTo(env: Env, p: Proposal, spent: set<Account>, params: DaoParams, d: Denom): int {
    var a := env.parseAddress(p.proposer);
    if a.Some? then Unspent(a.value, spent, AmountOf(Deposit(params, p.content), d)) else 0
  }

  function OwedEntries(env: Env, s: DaoState, spent: set<Account>, but: set<nat>, d: Denom): map<nat, int> {
    map j | j in s.proposals && s.proposals[j].status == VotingPeriod ::
      if j in but then 0 else OwedTo(env, s.proposals[j], spent, s.params, d)
  }

  /** By the active proposals other than `but`. */
  ghost function Owed(env: Env, s: DaoState, spent: set<Account>, but: set<nat>, d: Denom): int {
    Total(OwedEntries(env, s, spent, but, d))
  }

  lemma OwedBounds(env: Env, s: DaoState, spent: set<Account>, but: set<nat>, d: Denom)
    requires ValidParams(s.params)
    ensures 0 <= Owed(env, s, spent, but, d) <= Escrow(s, d)
  {
    TotalNonNegative(OwedEntries(env, s, spent, but, d));
    TotalMonotone(OwedEntries(env, s, spent, but, d), EscrowEntries(s, d));
  }

  lemma OwedWithout(env: Env, s: DaoState, spent: set<Account>, but: set<nat>, a: Account, d: Denom)
    requires ValidParams(s.params)
    ensures Owed(env, s, spent + {a}, but, d) <= Owed(env, s, spent, but, d)
  {
    TotalMonotone(OwedEntries(env, s, spent + {a}, but, d), OwedEntries(env, s, spent, but, d));
  }

  lemma SameOwed(env: Env, s: DaoState, s': DaoState, spent: set<Account>, but: set<nat>, d: Denom)
    requires s'.proposals == s.proposals && s'.params == s.params
    ensures Owed(env, s', spent, but, d) == Owed(env, s, spent, but, d)
  {
  }

  lemma OwedWithNew(env: Env, s: DaoState, p: Proposal, spent: set<Account>, but: set<nat>, d: Denom)
    requires s.nextId !in s.proposals && p.status == VotingPeriod && s.nextId !in but
    ensures
      Owed(env, WithNew(s, p), spent, but, d)
        == Owed(env, s, spent, but, d) + OwedTo(env, p, spent, s.params, d)
  {
    hide OwedTo;
    var owed, more := OwedEntries(env, s, spent, but, d), OwedTo(env, p, spent, s.params, d);
    assert OwedEntries(env, WithNew(s, p), spent, but, d) == owed[s.nextId := more];
    TotalInsert(owed, s.nextId, more);
  }

  lemma OwedSettled(env: Env, s: DaoState, s': DaoState, spent: set<Account>, but: set<nat>, j: nat, d: Denom)
    requires IsActive(s, j) && s'.params == s.params && j in s'.proposals && j !in but
    requires s'.proposals == s.proposals[j := s'.proposals[j]] && IsFinished(s'.proposals[j])
    ensures
      Owed(env, s', spent, but, d)
        == Owed(env, s, spent, but, d) - OwedTo(env, s.proposals[j], spent, s.params, d)
  {
    hide OwedTo;
    forall i | i in s.proposals && i != j ensures s'.proposals[i] == s.proposals[i] {
    }
    assert OwedEntries(env, s', spent, but, d) == OwedEntries(env, s, spent, but, d) - {j};
    TotalRemove(OwedEntries(env, s, spent, but, d), j);
  }

  // ---------- both together ----------

  /** The voting tokens that users outside `spent` hold or may get back from proposals other than `but`. */
  ghost function Potential(env: Env, w: World, spent: set<Account>, but: set<nat>): int {
    var d := w.dao.params.votingTokenDenom;
    Free(w.bank, spent, d) + Owed(env, w.dao, spent, but, d)
  }

  lemma PotentialNonNegative(env: Env, w: World, spent: set<Account>, but: set<nat>)
    requires WorldOk(env, w)
    ensures Potential(env, w, spent, but) >= 0
  {
    var d := w.dao.params.votingTokenDenom;
    FreeBounds(w.bank, spent, d);
    assert Supply(w.bank, d) >= 0 by { SupplyNonNegative(w.bank, d); }
    OwedBounds(env, w.dao, spent, but, d);
  }

  /** A transfer moves the tokens of unspent users to where it sends them, and nothing else. */
  lemma SendPotential(env: Env, w: World, step: Step, spent: set<Account>, but: set<nat>)
    requires step.BankSend? && ValidCoins(step.amount)
    requires SendToAccount(w.bank, step.from, step.to, step.amount).Ok?
    ensures
      var n := AmountOf(step.amount, w.dao.params.votingTokenDenom);
      Potential(env, Next(env, w, step), spent, but)
        == Potential(env, w, spent, but) - Unspent(step.from, spent, n) + Unspent(step.to, spent, n)
  {
    FreeSend(w.bank, step.from, step.to, step.amount, spent, w.dao.params.votingTokenDenom);
  }

  lemma SubmitPotential(env: Env, w: World, m: MsgSubmitProposal, spent: set<Account>, but: set<nat>)
    requires WorldOk(env, w) && DaoMessages.HasRoom(w.dao) && Submit(env, w, m).Ok? && w.dao.nextId !in but
    ensures Potential(env, Submit(env, w, m).value, spent, but) == Potential(env, w, spent, but)
  {
    hide Free, Owed, HasActiveTwin, ContentError, ValidContent, CheckTld;
    hide Sound, LotsOk, VotesOk, TalliesStored, ActiveDistinct, Solvent, Registry.RegistryOk;
    var w', c, payer := Submit(env, w, m).value, m.content.content, env.parseAddress(m.proposer).value;
    var d, p, deposit := w.dao.params.votingTokenDenom, w'.dao.proposals[w.dao.nextId], Deposit(w.dao.params, c);
    FreshId(env, w.dao);
    OwedWithNew(env, w.dao, p, spent, but, d);
    assert w'.dao == WithNew(w.dao, p);
    if !IsZero(deposit) { FreeSend(w.bank, payer, DAO, deposit, spent, d); }
  }

  lemma VotePotential(env: Env, w: World, m: MsgVote, spent: set<Account>, but: set<nat>)
    requires CastVote(env, w, m).Ok?
    ensures Potential(env, CastVote(env, w, m).value, spent, but) == Potential(env, w, spent, but)
  {
    hide Free, Owed, VoterPower;
    SameOwed(env, w.dao, CastVote(env, w, m).value.dao, spent, but, w.dao.params.votingTokenDenom);
  }

  lemma FreeGrant(b: BankState, to: Account, amount: Coins, spent: set<Account>, d: Denom)
    ensures
      var (b', done) := Grant(b, to, amount);
      Free(b', spent, d) == Free(b, spent, d) + if done then Unspent(to, spent, AmountOf(amount, d)) else 0
  {
    hide Free;
    var b1 := MintTo(b, DAO, amount);
    FreeMint(b, DAO, amount, spent, d);
    if SendToAccount(b1, DAO, to, amount).Ok? {
      FreeSend(b1, DAO, to, amount, spent, d);
    } else if BurnFrom(b1, DAO, amount).Ok? {
      FreeBurn(b1, DAO, amount, spent, d);
    }
  }

  lemma FreeSettleDeposit(env: Env, b: BankState, p: Proposal, status: Status, params: DaoParams,
                          spent: set<Account>, d: Denom)
    requires ValidParams(params)
    ensures
      Free(SettleDeposit(env, b, p.proposer, status, Deposit(params, p.content)), spent, d)
        <= Free(b, spent, d) + OwedTo(env, p, spent, params, d)
  {
    hide Free;
    var deposit, a := Deposit(params, p.content), env.parseAddress(p.proposer);
    if status == Executed {
      if a.Some? && SendToAccount(b, DAO, a.value, deposit).Ok? {
        FreeSend(b, DAO, a.value, deposit, spent, d);
      }
    } else if BurnFrom(b, DAO, deposit).Ok? {
      FreeBurn(b, DAO, deposit, spent, d);
    }
  }

  /** An execution that creates no lot puts no voting token into anybody's hands. */
  lemma FreeExecute(env: Env, w: World, j: nat, c: Content, spent: set<Account>)
    requires ValidContent(env, c) && Execute(env, w, j, c).0.dao.lots == map[]
    ensures
      Free(Execute(env, w, j, c).0.bank, spent, w.dao.params.votingTokenDenom)
        == Free(w.bank, spent, w.dao.params.votingTokenDenom)
  {
    hide Free, Grant, Registry.AddPermittedTld, Names.MatchesTldRegexp;
    if c.RequestTokens? {
      var d, to := w.dao.params.votingTokenDenom, env.parseAddress(c.recipient).value;
      FreeGrant(w.bank, to, c.amount, spent, d);
      if d in c.amount { assert LotKey(to, j) in GrantLot(w.dao, to, j, c, w.height); }
    }
  }

  /** Without a grant of the voting token, settling a proposal only gives deposits back. */
  lemma SettleFree(env: Env, w: World, j: nat, spent: set<Account>)
    requires WorldOk(env, w) && IsActive(w.dao, j) && Settle(env, w, j).dao.lots == map[]
    ensures
      var d := w.dao.params.votingTokenDenom;
      Free(Settle(env, w, j).bank, spent, d)
        <= Free(w.bank, spent, d) + OwedTo(env, w.dao.proposals[j], spent, w.dao.params, d)
  {
    hide Free, OwedTo, Execute, SettleDeposit, TallyOf, Wins, LotsOk, VotesOk, TalliesStored, ActiveDistinct;
    hide Solvent, Sound, Registry.RegistryOk;
    var p := w.dao.proposals[j];
    assert ProposalOk(env, w.dao, j);
    var (w1, done) := if Wins(w.dao, j) then Execute(env, w, j, p.content) else (w, false);
    if Wins(w.dao, j) { FreeExecute(env, w, j, p.content, spent); }
    FreeSettleDeposit(env, w1.bank, p, if !Wins(w.dao, j) then Rejected else if done then Executed else Failed,
                      w.dao.params, spent, w.dao.params.votingTokenDenom);
  }

  lemma SettlePotential(env: Env, w: World, j: nat, spent: set<Account>, but: set<nat>)
    requires WorldOk(env, w) && IsActive(w.dao, j) && Settle(env, w, j).dao.lots == map[] && j !in but
    ensures Potential(env, Settle(env, w, j), spent, but) <= Potential(env, w, spent, but)
  {
    hide Free, Owed, OwedTo, Settle, WorldOk;
    var w' := Settle(env, w, j);
    SettleOnly(env, w, j);
    SettleKeepsVotes(env, w, j);
    SettleFree(env, w, j, spent);
    OwedSettled(env, w.dao, w'.dao, spent, but, j, w.dao.params.votingTokenDenom);
  }

  lemma SettleKeepsVotes(env: Env, w: World, j: nat)
    requires WorldOk(env, w) && IsActive(w.dao, j)
    ensures
      var w' := Settle(env, w, j);
      w'.dao.votes == w.dao.votes && w'.dao.params == w.dao.params && (w'.dao.lots == map[] ==> w.dao.lots == map[])
  {
    hide Settle, WorldOk;
    SettleShape(env, w, j);
  }

  lemma {:induction false} SettleAllPotential(env: Env, w: World, ids: seq<nat>, spent: set<Account>, but: set<nat>)
    requires WorldOk(env, w) && IsAscending(ids) && forall i :: 0 <= i < |ids| ==> IsActive(w.dao, ids[i])
    requires SettleAll(env, w, ids).dao.lots == map[] && forall j <- ids :: j !in but
    ensures Potential(env, SettleAll(env, w, ids), spent, but) <= Potential(env, w, spent, but)
  {
    hide WorldOk, Settle, Potential;
    if ids != [] {
      var front, j := ids[..|ids| - 1], ids[|ids| - 1];
      assert ids == front + [j];
      assert forall i :: 0 <= i < |front| ==> front[i] == ids[i] < j;
      NextIsReady(env, w, front, j);
      SettleKeepsVotes(env, SettleAll(env, w, front), j);
      SettleAllPotential(env, w, front, spent, but);
      SettlePotential(env, SettleAll(env, w, front), j, spent, but);
    }
  }

  lemma EndBlockPotential(env: Env, w: World, step: Step, spent: set<Account>, but: set<nat>)
    requires WorldOk(env, w) && step.EndBlock? && Next(env, w, step).dao.lots == map[]
    requires forall j <- but :: !IsDue(w, j)
    ensures Potential(env, Next(env, w, step), spent, but) <= Potential(env, w, spent, but)
  {
    hide WorldOk, Settle, SettleAll, Due, Free;
    DueLaw(w);
    SettleAllPotential(env, w, Due(w), spent, but);
    SameOwed(env, EndBlocker(env, w).dao, Next(env, w, step).dao, spent, but, w.dao.params.votingTokenDenom);
  }

  lemma FreeCharge(b: BankState, payer: Account, fee: Coins, spent: set<Account>, d: Denom)
    requires ValidCoins(fee) && Registry.ChargeFee(b, payer, fee).Ok?
    ensures Free(Registry.ChargeFee(b, payer, fee).value, spent, d) <= Free(b, spent, d)
  {
    hide Free;
    if !IsZero(fee) {
      FreeSend(b, payer, DNS, fee, spent, d);
      FreeBurn(Send(b, payer, DNS, fee).value, DNS, fee, spent, d);
    }
  }

  lemma RegistryPotential(env: Env, w: World, step: Step, spent: set<Account>, but: set<nat>)
    requires WorldOk(env, w) && step.RegistryTx?
    ensures Potential(env, Next(env, w, step), spent, but) <= Potential(env, w, spent, but)
  {
    hide Free, Owed, Registry.ChargeFee, Names.NormalizeName, Names.SplitDots;
    hide Registry.Update, Registry.Delete, Registry.Heartbeat, Registry.Transfer, Registry.SetParams;
    hide Registry.IsPermitted, Registry.ValidRecords;
    if step.msg.CreateDomain? && Registry.Handle(env, w.time, w.registry, w.bank, step.msg).Ok? {
      var payer := env.parseAddress(step.msg.creator).value;
      assert ValidCoins(w.registry.fee);
      FreeCharge(w.bank, payer, w.registry.fee, spent, w.dao.params.votingTokenDenom);
    }
  }

  /** Before the first grant no step but a transfer out of a spent account raises the potential. */
  lemma StepPotential(env: Env, w: World, step: Step, spent: set<Account>, but: set<nat>)
    requires Good(env, w) && Admissible(env, w, step) && Next(env, w, step).dao.lots == map[]
    requires w.dao.nextId !in but && (step.EndBlock? ==> forall j <- but :: !IsDue(w, j))
    requires step.BankSend? && step.from in spent ==>
      Unspent(step.to, spent, AmountOf(step.amount, w.dao.params.votingTokenDenom)) == 0
    ensures Potential(env, Next(env, w, step), spent, but) <= Potential(env, w, spent, but)
  {
    hide Potential, WorldOk, Submit, CastVote, EndBlocker, Registry.Handle, NoneOverdue, WonTldsPermitted;
    match step
    case SubmitProposal(m) => if Submit(env, w, m).Ok? { SubmitPotential(env, w, m, spent, but); }
    case CastAVote(m) => if CastVote(env, w, m).Ok? { VotePotential(env, w, m, spent, but); }
    case BankSend(from, to, amount) =>
      if ValidCoins(amount) && SendToAccount(w.bank, from, to, amount).Ok? {
        SendPotential(env, w, step, spent, but);
        PositiveAmount(amount, w.dao.params.votingTokenDenom);
      }
    case RegistryTx(_) => RegistryPotential(env, w, step, spent, but);
    case EndBlock(_) => EndBlockPotential(env, w, step, spent, but);
  }

  lemma PositiveAmount(c: Coins, d: Denom)
    requires ValidCoins(c)
    ensures AmountOf(c, d) >= 0 && (d in c <==> AmountOf(c, d) > 0)
  {
  }

  // ---------- the claim of a proposal ----------

  /** The turnout with all the tokens that have not voted yet. */
  ghost function Claim(env: Env, w: World, id: nat): int {
    Voted(w.dao, id) + Potential(env, w, Voters(w.dao, id), {})
  }

  /** A transfer of voting tokens from somebody who has voted on the proposal to a user who has not. */
  ghost predicate Recycles(w: World, step: Step, id: nat) {
    && step.BankSend? && w.dao.lots == map[] && w.dao.params.votingTokenDenom in step.amount
    && step.from in Voters(w.dao, id) && step.to.User? && step.to !in Voters(w.dao, id)
  }

  /** A user's transfer raises the claim if and only if it recycles tokens. */
  lemma SendClaim(env: Env, w: World, step: Step, id: nat)
    requires step.BankSend? && ValidCoins(step.amount) && step.from.User? && w.dao.lots == map[]
    requires SendToAccount(w.bank, step.from, step.to, step.amount).Ok?
    ensures Claim(env, Next(env, w, step), id) > Claim(env, w, id) <==> Recycles(w, step, id)
  {
    hide Potential;
    SendPotential(env, w, step, Voters(w.dao, id), {});
    PositiveAmount(step.amount, w.dao.params.votingTokenDenom);
  }

  lemma VotedWithinClaim(env: Env, w: World, id: nat)
    requires WorldOk(env, w)
    ensures Voted(w.dao, id) <= Claim(env, w, id)
  {
    hide Potential, WorldOk;
    PotentialNonNegative(env, w, Voters(w.dao, id), {});
  }

  /** Before the first grant a vote weighs the voter's balance. */
  lemma CoinVote(env: Env, w: World, m: MsgVote)
    requires w.dao.lots == map[] && CastVote(env, w, m).Ok?
    ensures env.parseAddress(m.voter).Some?
    ensures
      var w', voter := CastVote(env, w, m).value, env.parseAddress(m.voter).value;
      w' == w.(dao := w.dao.(votes := w.dao.votes[VoteKey(m.proposalId, voter) :=
        Vote(m.proposalId, m.voter, m.option, Balance(w.bank, voter, w.dao.params.votingTokenDenom))]))
  {
  }

  lemma PotentialWithout(env: Env, w: World, spent: set<Account>, a: Account)
    requires WorldOk(env, w)
    ensures
      Potential(env, w, spent + {a}, {})
        <= Potential(env, w, spent, {}) - Unspent(a, spent, Balance(w.bank, a, w.dao.params.votingTokenDenom))
  {
    hide Free, Owed;
    var d := w.dao.params.votingTokenDenom;
    FreeWithout(w.bank, spent, a, d);
    OwedWithout(env, w.dao, spent, {}, a, d);
  }

  lemma VoteClaim(env: Env, w: World, m: MsgVote, id: nat)
    requires WorldOk(env, w) && ValidEnv(env) && w.dao.lots == map[]
    requires CastVote(env, w, m).Ok? && SignedByUser(env, m.voter)
    ensures Claim(env, CastVote(env, w, m).value, id) <= Claim(env, w, id)
  {
    hide Potential, WorldOk, CastVote, Bucket, Turnout;
    CoinVote(env, w, m);
    var w', voters, voter := CastVote(env, w, m).value, Voters(w.dao, id), env.parseAddress(m.voter).value;
    var key := VoteKey(m.proposalId, voter);
    WorldFacts(env, w, voter, w.dao.params.votingTokenDenom);
    CastVoteKeepsOk(env, w, m);
    VotePotential(env, w, m, Voters(w'.dao, id), {});
    if m.proposalId == id {
      TallyWithVote(w.dao.votes, id, key, w'.dao.votes[key]);
      assert Voters(w'.dao, id) == voters + {voter};
      assert voter !in voters;
      PotentialWithout(env, w, voters, voter);
    } else {
      TallyOfOther(w.dao.votes, id, key, w'.dao.votes[key]);
      assert Voters(w'.dao, id) == voters;
    }
  }

  lemma WorldFacts(env: Env, w: World, a: Account, d: Denom)
    requires WorldOk(env, w)
    ensures ValidParams(w.dao.params) && Balance(w.bank, a, d) >= 0
  {
  }

  lemma SameTurnout(s: DaoState, s': DaoState, id: nat)
    requires s'.votes == s.votes
    ensures Voted(s', id) == Voted(s, id) && Voters(s', id) == Voters(s, id)
  {
  }

  lemma OtherVotes(env: Env, w: World, step: Step)
    requires Good(env, w) && !step.CastAVote?
    ensures Next(env, w, step).dao.votes == w.dao.votes
  {
    hide WorldOk, PayDeposit, HasActiveTwin, CheckTld, ContentError, ValidContent, Registry.Handle, EndBlocker;
    if step.EndBlock? { EndBlockOutcome(env, w); }
  }

  lemma StepClaim(env: Env, w: World, step: Step, id: nat)
    requires Good(env, w) && ValidEnv(env) && Admissible(env, w, step) && !Recycles(w, step, id)
    requires w.dao.lots == map[] && Next(env, w, step).dao.lots == map[]
    ensures Claim(env, Next(env, w, step), id) <= Claim(env, w, id)
  {
    hide Potential, Good, Submit, CastVote, EndBlocker, Registry.Handle, Voted, Voters;
    if step.CastAVote? {
      if CastVote(env, w, step.vote).Ok? {
        VoteClaim(env, w, step.vote, id) by { GoodIsOk(env, w); }
      }
    } else {
      OtherVotes(env, w, step);
      SameTurnout(w.dao, Next(env, w, step).dao, id);
      StepPotential(env, w, step, Voters(w.dao, id), {});
    }
  }

  lemma GoodIsOk(env: Env, w: World)
    requires Good(env, w)
    ensures WorldOk(env, w)
  {
  }

  /** In the run no step recycles tokens. */
  ghost predicate QuietRun(env: Env, w: World, steps: seq<Step>, id: nat)
    decreases |steps|
  {
    steps == [] || (!Recycles(w, steps[0], id) && QuietRun(env, Next(env, w, steps[0]), steps[1..], id))
  }

  // ---------- a new proposal ----------

  /** The state in which a proposal was just submitted. */
  ghost predicate JustSubmitted(w: World, id: nat) {
    && IsActive(w.dao, id) && w.height <= w.dao.proposals[id].votingEndBlock
    && w.dao.proposals[id].totalVotingPowerAtSnapshot == Supply(w.bank, w.dao.params.votingTokenDenom)
    && forall k <- w.dao.votes :: k.proposal != id
  }

  lemma SubmissionIsNew(env: Env, w: World, m: MsgSubmitProposal)
    requires Good(env, w) && ValidEnv(env) && Admissible(env, w, SubmitProposal(m)) && Submit(env, w, m).Ok?
    ensures
      var w0 := Next(env, w, SubmitProposal(m));
      Good(env, w0) && w0.dao.lots == w.dao.lots && w0.height == w.height && JustSubmitted(w0, w.dao.nextId)
  {
    hide CheckTld, PayDeposit, HasActiveTwin, ContentError, ValidContent, NoneOverdue, WonTldsPermitted;
    hide LotsOk, TalliesStored, ActiveDistinct, Solvent, Sound, Registry.RegistryOk;
    assert forall k <- w.dao.votes :: VoteOk(env, w.dao, k);
    FreshId(env, w.dao);
    NextOkGood(env, w, SubmitProposal(m));
  }

  lemma NextOkGood(env: Env, w: World, step: Step)
    requires Good(env, w) && ValidEnv(env) && Admissible(env, w, step)
    ensures Good(env, Next(env, w, step))
  {
    hide Good, Next, Admissible;
    NextOk(env, w, step);
  }

  /** Nobody has voted yet: the claim is at most the supply. */
  lemma ClaimAtStart(env: Env, w: World, id: nat)
    requires Good(env, w) && JustSubmitted(w, id)
    ensures Voted(w.dao, id) == 0 && Voters(w.dao, id) == {}
    ensures Claim(env, w, id) <= w.dao.proposals[id].totalVotingPowerAtSnapshot
    ensures w.dao.proposals[id].totalVotingPowerAtSnapshot >= 0
  {
    hide ProposalsOk, ActiveDistinct, VotesOk, TalliesStored, LotsOk, Registry.RegistryOk;
    hide NoneOverdue, WonTldsPermitted, Free, Owed;
    var d := w.dao.params.votingTokenDenom;
    assert Turnout(w.dao.votes, id) == map[];
    assert Voters(w.dao, id) == {};
    FreeBounds(w.bank, {}, d);
    OwedBounds(env, w.dao, {}, {}, d);
    SupplyNonNegative(w.bank, d);
    assert Balance(w.bank, DAO, d) >= Escrow(w.dao, d);
  }

  /** In a run that grants no voting token, the turnout ends within the snapshot. */
  ghost predicate TurnoutFits(env: Env, w: World, steps: seq<Step>, id: nat) {
    AdmissibleRun(env, w, steps) && Run(env, w, steps).dao.lots == w.dao.lots ==>
      id in w.dao.proposals && Voted(Run(env, w, steps).dao, id) <= w.dao.proposals[id].totalVotingPowerAtSnapshot
  }

  /** What every step keeps of a proposal. */
  lemma StepKeeps(env: Env, w: World, step: Step, id: nat)
    requires Good(env, w) && ValidEnv(env) && Admissible(env, w, step) && id in w.dao.proposals
    ensures
      var w' := Next(env, w, step);
      && Good(env, w') && id in w'.dao.proposals && w'.dao.params == w.dao.params
      && w'.dao.proposals[id].totalVotingPowerAtSnapshot == w.dao.proposals[id].totalVotingPowerAtSnapshot
      && (w'.dao.lots == map[] ==> w.dao.lots == map[])
      && (IsFinished(w.dao.proposals[id]) ==> w'.dao.proposals[id] == w.dao.proposals[id])
  {
    hide Good, Next, Admissible;
    NextOk(env, w, step);
  }
}
