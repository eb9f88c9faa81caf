/** What the end of a block does to the proposals that are due. */
module DaoSettlement {
  import opened Wrappers
  import opened MapTotals
  import opened Bank
  import opened Environment
  import opened Names
  import opened Registry
  import opened Walks
  import opened DaoTypes
  import opened Dao
  import opened DaoInvariant

  // ---------- money ----------

  /** A grant to a blocked account leaves every balance and the supply as they were. */
  lemma GrantEffect(b: BankState, to: Account, amount: Coins, x: Account, d: Denom)
    requires Sound(b) && ValidCoins(amount)
    ensures
      var (b', done) := Grant(b, to, amount);
      && done == !IsBlocked(to)
      && Supply(b', d) == Supply(b, d) + (if done then AmountOf(amount, d) else 0)
      && Balance(b', x, d) == Balance(b, x, d) + (if done && x == to then AmountOf(amount, d) else 0)
  {
    var b1 := MintTo(b, DAO, amount);
    MintBalance(b, DAO, amount, x, d);
    MintCovers(b, amount);
    if IsBlocked(to) {
      BurnBalance(b1, DAO, amount, x, d);
    } else {
      SendBalance(b1, DAO, to, amount, x, d);
    }
  }

  lemma MintCovers(b: BankState, amount: Coins)
    requires Sound(b)
    ensures Covers(BalanceOf(MintTo(b, DAO, amount), DAO), amount)
  {
    forall d | d in amount ensures AmountOf(BalanceOf(MintTo(b, DAO, amount), DAO), d) >= amount[d] {
      MintBalance(b, DAO, amount, DAO, d);
      assert Balance(b, DAO, d) >= 0;
    }
  }

  lemma GrantKeepsSound(b: BankState, to: Account, amount: Coins)
    requires Sound(b) && ValidCoins(amount)
    ensures Sound(Grant(b, to, amount).0)
  {
    hide Sound;
    var b1 := MintTo(b, DAO, amount);
    MintKeepsSound(b, DAO, amount);
    MintCovers(b, amount);
    if IsBlocked(to) {
      BurnKeepsSound(b1, DAO, amount);
    } else {
      SendKeepsSound(b1, DAO, to, amount);
    }
  }

  /** With the funds in place a deposit is refunded in full or burned in full. */
  lemma SettleDepositEffect(env: Env, b: BankState, proposer: string, status: Status, deposit: Coins,
                            x: Account, d: Denom)
    requires Covers(BalanceOf(b, DAO), deposit) && IsUserAddress(env, proposer)
    ensures
      var b', a := SettleDeposit(env, b, proposer, status, deposit), env.parseAddress(proposer).value;
      && Supply(b', d) == Supply(b, d) - (if status == Executed then 0 else AmountOf(deposit, d))
      && Balance(b', x, d) ==
           Balance(b, x, d) - (if x == DAO then AmountOf(deposit, d) else 0)
           + (if status == Executed && x == a then AmountOf(deposit, d) else 0)
  {
    if !IsZero(deposit) {
      if status == Executed {
        SendBalance(b, DAO, env.parseAddress(proposer).value, deposit, x, d);
      } else {
        BurnBalance(b, DAO, deposit, x, d);
      }
    }
  }

  lemma SettleDepositKeepsSound(env: Env, b: BankState, proposer: string, status: Status, deposit: Coins)
    requires Sound(b) && ValidCoins(deposit)
    ensures Sound(SettleDeposit(env, b, proposer, status, deposit))
  {
    hide Sound;
    if !IsZero(deposit) {
      if status == Executed {
        var a := env.parseAddress(proposer);
        if a.Some? && SendToAccount(b, DAO, a.value, deposit).Ok? {
          SendKeepsSound(b, DAO, a.value, deposit);
        }
      } else if BurnFrom(b, DAO, deposit).Ok? {
        BurnKeepsSound(b, DAO, deposit);
      }
    }
  }

  /** An active proposal's deposit is covered by what the module account holds. */
  lemma EscrowCovers(s: DaoState, b: BankState, id: nat)
    requires ValidParams(s.params) && IsActive(s, id)
    requires forall d :: Balance(b, DAO, d) >= Escrow(s, d)
    ensures Covers(BalanceOf(b, DAO), Deposit(s.params, s.proposals[id].content))
  {
    var deposit := Deposit(s.params, s.proposals[id].content);
    forall d | d in deposit ensures AmountOf(BalanceOf(b, DAO), d) >= deposit[d] {
      var entries := EscrowEntries(s, d);
      assert forall j <- entries :: entries[j] >= 0;
      TotalAtLeast(entries, id);
      assert Balance(b, DAO, d) >= Escrow(s, d);
    }
  }

  // ---------- execution ----------

  /** The amount minted to x if the execution succeeds. */
  function Minted(env: Env, c: Content, x: Account, d: Denom): int {
    if c.RequestTokens? && env.parseAddress(c.recipient) == Some(x) then AmountOf(c.amount, d) else 0
  }

  lemma ExecuteEffect(env: Env, w: World, id: nat, c: Content, x: Account, d: Denom)
    requires Sound(w.bank) && ValidContent(env, c)
    ensures
      var (w1, done) := Execute(env, w, id, c);
      && Balance(w1.bank, x, d) == Balance(w.bank, x, d) + (if done then Minted(env, c, x, d) else 0)
      && Supply(w1.bank, d) ==
           Supply(w.bank, d) + (if done && c.RequestTokens? then AmountOf(c.amount, d) else 0)
  {
    if c.RequestTokens? {
      GrantEffect(w.bank, env.parseAddress(c.recipient).value, c.amount, x, d);
    }
  }

  lemma ExecuteKeeps(env: Env, w: World, id: nat, c: Content)
    requires Sound(w.bank) && RegistryOk(w.registry) && ValidContent(env, c)
    ensures
      var (w1, done) := Execute(env, w, id, c);
      && w1.dao == w.dao.(lots := w1.dao.lots) && w1.height == w.height && w1.time == w.time
      && Sound(w1.bank)
      && RegistryOk(w1.registry) && RegistryHistory(w.registry, w1.registry)
      && w1.registry == w.registry.(tlds := w1.registry.tlds)
      && (!done || c.AddTld? ==> w1.dao == w.dao)
      && (done && c.RequestTokens? ==>
            w1.dao.lots == GrantLot(w.dao, env.parseAddress(c.recipient).value, id, c, w.height))
  {
    hide Sound, MatchesTldRegexp;
    if c.RequestTokens? {
      GrantKeepsSound(w.bank, env.parseAddress(c.recipient).value, c.amount);
    } else if AddPermittedTld(w.registry, c.tld).Ok? {
      AddPermittedTldKeepsOk(w.registry, c.tld);
    }
  }

  /**
   AddTld: the only way a winning proposal can fail is that its label, in lower
   case, has become permitted in the meantime; otherwise it is permitted now.
   */
  lemma ExecuteAddTld(env: Env, w: World, id: nat, c: Content)
    requires ValidContent(env, c) && c.AddTld? && !IsReservedTld(ToLower(c.tld))
    ensures
      var (w1, done) := Execute(env, w, id, c);
      && (done <==> ToLower(c.tld) !in w.registry.tlds)
      && (done ==> w1.registry.tlds == w.registry.tlds + {ToLower(c.tld)})
  {
    NormalizersAgree(c.tld);
  }

  // ---------- one proposal ----------

  /** Where the money is after a settlement, account by account. */
  lemma SettleBalances(env: Env, w: World, id: nat, x: Account, d: Denom)
    requires WorldOk(env, w) && IsActive(w.dao, id)
    ensures
      var w', p := Settle(env, w, id), w.dao.proposals[id];
      var executed := w'.dao.proposals[id].status == Executed;
      var deposit := AmountOf(Deposit(w.dao.params, p.content), d);
      && Balance(w'.bank, x, d) ==
           Balance(w.bank, x, d) - (if x == DAO then deposit else 0)
           + (if executed && x == env.parseAddress(p.proposer).value then deposit else 0)
           + (if executed then Minted(env, p.content, x, d) else 0)
      && Supply(w'.bank, d) ==
           Supply(w.bank, d)
           + (if executed && p.content.RequestTokens? then AmountOf(p.content.amount, d) else 0)
           - (if executed then 0 else deposit)
  {
    hide TallyOf, Wins, Execute, SettleDeposit, Sound, RegistryOk;
    var p := w.dao.proposals[id];
    assert ProposalOk(env, w.dao, id);
    var (w1, done) := if Wins(w.dao, id) then Execute(env, w, id, p.content) else (w, false);
    var status := if !Wins(w.dao, id) then Rejected else if done then Executed else Failed;
    var deposit := Deposit(w.dao.params, p.content);
    assert Covers(BalanceOf(w1.bank, DAO), deposit) by {
      forall d ensures Balance(w1.bank, DAO, d) >= Escrow(w.dao, d) {
        assert Balance(w.bank, DAO, d) >= Escrow(w.dao, d);
        ExecuteEffect(env, w, id, p.content, DAO, d);
        MintedNonNegative(env, p.content, DAO, d);
      }
      EscrowCovers(w.dao, w1.bank, id);
    }
    ExecuteEffect(env, w, id, p.content, x, d);
    SettleDepositEffect(env, w1.bank, p.proposer, status, deposit, x, d);
  }

  lemma MintedNonNegative(env: Env, c: Content, x: Account, d: Denom)
    requires ValidContent(env, c)
    ensures Minted(env, c, x, d) >= 0
  {
  }

  lemma SettleEscrow(s: DaoState, s': DaoState, id: nat, d: Denom)
    requires IsActive(s, id) && s'.params == s.params
    requires id in s'.proposals && s'.proposals == s.proposals[id := s'.proposals[id]]
    requires IsFinished(s'.proposals[id]) && s'.proposals[id].content == s.proposals[id].content
    ensures Escrow(s', d) == Escrow(s, d) - AmountOf(Deposit(s.params, s.proposals[id].content), d)
  {
    assert EscrowEntries(s', d) == EscrowEntries(s, d) - {id};
    TotalRemove(EscrowEntries(s, d), id);
  }

  lemma SettleBurned(s: DaoState, s': DaoState, id: nat, d: Denom)
    requires IsActive(s, id) && s'.params == s.params
    requires id in s'.proposals && s'.proposals == s.proposals[id := s'.proposals[id]]
    requires s'.proposals[id].content == s.proposals[id].content
    requires s'.proposals[id].status in {Rejected, Failed, Executed}
    ensures
      Burned(s', d) == Burned(s, d) +
        if s'.proposals[id].status == Executed then 0
        else AmountOf(Deposit(s.params, s.proposals[id].content), d)
  {
    var a := AmountOf(Deposit(s.params, s.proposals[id].content), d);
    if s'.proposals[id].status == Executed {
      assert BurnedEntries(s', d) == BurnedEntries(s, d);
    } else {
      assert BurnedEntries(s', d) == BurnedEntries(s, d)[id := a];
      TotalInsert(BurnedEntries(s, d), id, a);
    }
  }

  lemma SettleGranted(s: DaoState, s': DaoState, id: nat, d: Denom)
    requires IsActive(s, id)
    requires id in s'.proposals && s'.proposals == s.proposals[id := s'.proposals[id]]
    requires s'.proposals[id].content == s.proposals[id].content
    requires s'.proposals[id].status in {Rejected, Failed, Executed}
    ensures
      var c, executed := s.proposals[id].content, s'.proposals[id].status == Executed;
      Granted(s', d) == Granted(s, d) + if executed && c.RequestTokens? then AmountOf(c.amount, d) else 0
  {
    var c, g, g' := s.proposals[id].content, GrantEntries(s, d), GrantEntries(s', d);
    if s'.proposals[id].status == Executed && c.RequestTokens? {
      assert g' == g[id := AmountOf(c.amount, d)];
      TotalInsert(g, id, AmountOf(c.amount, d));
    } else {
      assert g' == g;
    }
  }

  lemma SettleGrantedToDao(env: Env, s: DaoState, s': DaoState, id: nat, d: Denom)
    requires IsActive(s, id)
    requires id in s'.proposals && s'.proposals == s.proposals[id := s'.proposals[id]]
    requires s'.proposals[id].content == s.proposals[id].content
    requires s'.proposals[id].status in {Rejected, Failed, Executed}
    ensures
      var c, executed := s.proposals[id].content, s'.proposals[id].status == Executed;
      GrantedToDao(env, s', d) == GrantedToDao(env, s, d) + if executed then Minted(env, c, DAO, d) else 0
  {
    var c, t, t' := s.proposals[id].content, GrantEntriesTo(env, s, DAO, d), GrantEntriesTo(env, s', DAO, d);
    if s'.proposals[id].status == Executed && c.RequestTokens? && env.parseAddress(c.recipient) == Some(DAO) {
      assert t' == t[id := AmountOf(c.amount, d)];
      TotalInsert(t, id, AmountOf(c.amount, d));
    } else {
      assert t' == t;
    }
  }

  /** The stores of x/dao after a settlement, given how the proposal ended. */
  lemma SettledStores(env: Env, s: DaoState, s': DaoState, id: nat, height: nat)
    requires ProposalsOk(env, s) && ActiveDistinct(s)
    requires VotesOk(env, s) && TalliesStored(s) && LotsOk(env, s, height)
    requires IsActive(s, id)
    requires id in s'.proposals
    requires
      var t, status := TallyOf(s.votes, id), s'.proposals[id].status;
      && status in {Rejected, Failed, Executed}
      && s' == s.(
           proposals := s.proposals[id := s.proposals[id].(
             yesVotes := t.yes, noVotes := t.no, abstainVotes := t.abstain, status := status)],
           lots := s'.lots)
      && s'.lots ==
           if status == Executed && s.proposals[id].content.RequestTokens?
           then GrantLot(s, env.parseAddress(s.proposals[id].content.recipient).value, id,
                         s.proposals[id].content, height)
           else s.lots
    ensures ProposalsOk(env, s') && ActiveDistinct(s') && VotesOk(env, s') && TalliesStored(s')
    ensures LotsOk(env, s', height) && DaoHistory(s, s')
  {
    hide TallyOf, ValidContent, IsReservedTld;
    assert ProposalOk(env, s, id);
    forall j | j in s'.proposals ensures ProposalOk(env, s', j) { assert ProposalOk(env, s, j); }
    forall j | IsActive(s', j) ensures IsActive(s, j) && s'.proposals[j].content == s.proposals[j].content {
    }
    forall k | k in s'.votes ensures VoteOk(env, s', k) { assert VoteOk(env, s, k); }
    forall j | j in s'.proposals && IsFinished(s'.proposals[j]) ensures TallyStored(s', j) {
      if j != id { assert TallyStored(s, j); }
    }
    SettledLots(env, s, s', id, height);
  }

  lemma SettledLots(env: Env, s: DaoState, s': DaoState, id: nat, height: nat)
    requires LotsOk(env, s, height) && IsActive(s, id) && ProposalOk(env, s, id)
    requires id in s'.proposals && s'.params == s.params
    requires s'.proposals == s.proposals[id := s'.proposals[id]]
    requires s'.proposals[id].content == s.proposals[id].content
    requires
      s'.lots ==
        if s'.proposals[id].status == Executed && s.proposals[id].content.RequestTokens?
        then GrantLot(s, env.parseAddress(s.proposals[id].content.recipient).value, id,
                      s.proposals[id].content, height)
        else s.lots
    ensures LotsOk(env, s', height)
    ensures forall k <- s.lots :: k in s'.lots && s'.lots[k] == s.lots[k]
  {
    hide MatchesTldRegexp, IsReservedTld;
    forall k | k in s.lots ensures k.proposal != id { assert LotOk(env, s, k, height); }
    forall k | k in s'.lots ensures LotOk(env, s', k, height) {
      if k in s.lots { assert LotOk(env, s, k, height); }
    }
    forall j | IsVotingGrant(s', j) ensures HasLot(env, s', j) {
      if j != id { assert IsVotingGrant(s, j); }
    }
  }

  /** The link between Settle and the lemmas above. */
  lemma SettleShape(env: Env, w: World, id: nat)
    requires WorldOk(env, w) && IsActive(w.dao, id)
    ensures
      var w', p, t := Settle(env, w, id), w.dao.proposals[id], TallyOf(w.dao.votes, id);
      var status := w'.dao.proposals[id].status;
      && status in {Rejected, Failed, Executed}
      && (status == Rejected <==> !Wins(w.dao, id))
      && w'.dao == w.dao.(
           proposals := w.dao.proposals[id := p.(
             yesVotes := t.yes, noVotes := t.no, abstainVotes := t.abstain, status := status)],
           lots := w'.dao.lots)
      && w'.dao.lots ==
           (if status == Executed && p.content.RequestTokens?
            then GrantLot(w.dao, env.parseAddress(p.content.recipient).value, id, p.content, w.height)
            else w.dao.lots)
      && w'.height == w.height && w'.time == w.time
      && Sound(w'.bank) && RegistryOk(w'.registry) && RegistryHistory(w.registry, w'.registry)
      && w'.registry == w.registry.(tlds := w'.registry.tlds)
  {
    hide TallyOf, Wins, Execute, Sound, RegistryOk, SettleDeposit;
    var p := w.dao.proposals[id];
    assert ProposalOk(env, w.dao, id);
    ExecuteKeeps(env, w, id, p.content);
    var (w1, done) := if Wins(w.dao, id) then Execute(env, w, id, p.content) else (w, false);
    var status := if !Wins(w.dao, id) then Rejected else if done then Executed else Failed;
    SettleDepositKeepsSound(env, w1.bank, p.proposer, status, Deposit(w.dao.params, p.content));
  }

  /** Settling one proposal keeps the invariant and the accounts. */
  lemma SettleKeepsOk(env: Env, w: World, id: nat)
    requires WorldOk(env, w) && IsActive(w.dao, id)
    ensures
      var w' := Settle(env, w, id);
      && WorldOk(env, w') && DaoHistory(w.dao, w'.dao) && RegistryHistory(w.registry, w'.registry)
      && w'.registry == w.registry.(tlds := w'.registry.tlds)
      && w'.height == w.height && w'.time == w.time
      && forall d :: ForeignSupply(w', d) == ForeignSupply(w, d) && Surplus(env, w', d) == Surplus(env, w, d)
  {
    hide Settle, TallyOf, Wins, Sound, RegistryOk, RegistryHistory;
    hide ProposalsOk, ActiveDistinct, VotesOk, TalliesStored, LotsOk, DaoHistory;
    var w' := Settle(env, w, id);
    SettleShape(env, w, id);
    SettledStores(env, w.dao, w'.dao, id, w.height);
    forall d
      ensures Balance(w'.bank, DAO, d) >= Escrow(w'.dao, d)
      ensures ForeignSupply(w', d) == ForeignSupply(w, d) && Surplus(env, w', d) == Surplus(env, w, d)
    {
      SettleAccounts(env, w, id, d);
    }
  }

  lemma SettleAccounts(env: Env, w: World, id: nat, d: Denom)
    requires WorldOk(env, w) && IsActive(w.dao, id)
    ensures
      var w' := Settle(env, w, id);
      && Balance(w'.bank, DAO, d) >= Escrow(w'.dao, d)
      && ForeignSupply(w', d) == ForeignSupply(w, d) && Surplus(env, w', d) == Surplus(env, w, d)
  {
    hide Settle, TallyOf, Wins, Sound, RegistryOk, RegistryHistory, ValidContent, IsReservedTld, GrantLot;
    hide Escrow, Burned, Granted, GrantedToDao, Minted, Deposit;
    var w', p := Settle(env, w, id), w.dao.proposals[id];
    assert ProposalOk(env, w.dao, id);
    SettleShape(env, w, id);
    SettleBalances(env, w, id, DAO, d);
    SettleEscrow(w.dao, w'.dao, id, d);
    SettleBurned(w.dao, w'.dao, id, d);
    SettleGranted(w.dao, w'.dao, id, d);
    SettleGrantedToDao(env, w.dao, w'.dao, id, d);
    MintedNonNegative(env, p.content, DAO, d);
    assert Balance(w.bank, DAO, d) >= Escrow(w.dao, d);
  }

  // ---------- how a winning proposal ends ----------

  /** A winning AddTld fails exactly when its label became permitted after it was submitted. */
  lemma SettleAddTld(env: Env, w: World, id: nat)
    requires WorldOk(env, w) && IsActive(w.dao, id) && w.dao.proposals[id].content.AddTld?
    requires Wins(w.dao, id)
    ensures
      var w', tld := Settle(env, w, id), ToLower(w.dao.proposals[id].content.tld);
      var status := w'.dao.proposals[id].status;
      && (status == Failed <==> tld in w.registry.tlds)
      && (status == Executed <==> tld !in w.registry.tlds)
      && tld in w'.registry.tlds
  {
    hide TallyOf, Wins, SettleDeposit;
    assert ProposalOk(env, w.dao, id);
    ExecuteAddTld(env, w, id, w.dao.proposals[id].content);
  }

  /** A winning grant fails exactly when its recipient may not receive coins. */
  lemma SettleGrant(env: Env, w: World, id: nat)
    requires WorldOk(env, w) && IsActive(w.dao, id) && w.dao.proposals[id].content.RequestTokens?
    requires Wins(w.dao, id)
    ensures
      var w', to := Settle(env, w, id), env.parseAddress(w.dao.proposals[id].content.recipient);
      to.Some? && (w'.dao.proposals[id].status == if IsBlocked(to.value) then Failed else Executed)
  {
    hide TallyOf, Wins, SettleDeposit;
    assert ProposalOk(env, w.dao, id);
    var c := w.dao.proposals[id].content;
    GrantEffect(w.bank, env.parseAddress(c.recipient).value, c.amount, DAO, 0);
  }

  /** A label whose proposal won, whether executed or failed, is permitted. */
  ghost predicate WonTldsPermitted(w: World) {
    forall id <- w.dao.proposals ::
      w.dao.proposals[id].content.AddTld? && w.dao.proposals[id].status in {Executed, Failed} ==>
        ToLower(w.dao.proposals[id].content.tld) in w.registry.tlds
  }

  ghost predicate NoneReserved(r: RegistryState) {
    forall t <- r.tlds :: !IsReservedTld(t)
  }

  lemma SettleTlds(env: Env, w: World, id: nat)
    requires WorldOk(env, w) && IsActive(w.dao, id)
    ensures WonTldsPermitted(w) ==> WonTldsPermitted(Settle(env, w, id))
    ensures NoneReserved(w.registry) ==> NoneReserved(Settle(env, w, id).registry)
  {
    hide TallyOf, Wins, SettleDeposit, Sound, RegistryOk, Solvent, IsReservedTld, ToLower;
    SettleShape(env, w, id);
    if w.dao.proposals[id].content.AddTld? && Wins(w.dao, id) { SettleAddTld(env, w, id); }
  }

  // ---------- the whole block ----------

  lemma {:induction false} SettleAllKeepsOk(env: Env, w: World, ids: seq<nat>)
    requires WorldOk(env, w) && IsAscending(ids)
    requires forall i :: 0 <= i < |ids| ==> IsActive(w.dao, ids[i])
    ensures
      var w' := SettleAll(env, w, ids);
      && WorldOk(env, w') && DaoHistory(w.dao, w'.dao) && RegistryHistory(w.registry, w'.registry)
      && w'.registry == w.registry.(tlds := w'.registry.tlds)
      && w'.height == w.height && w'.time == w.time
      && (forall d :: ForeignSupply(w', d) == ForeignSupply(w, d) && Surplus(env, w', d) == Surplus(env, w, d))
      && (forall id <- w.dao.proposals :: id in w'.dao.proposals &&
            if id in ids then IsFinished(w'.dao.proposals[id])
            else w'.dao.proposals[id] == w.dao.proposals[id])
      && (WonTldsPermitted(w) ==> WonTldsPermitted(w'))
      && (NoneReserved(w.registry) ==> NoneReserved(w'.registry))
  {
    hide Settle, WorldOk, DaoHistory, RegistryHistory, ForeignSupply, Surplus, WonTldsPermitted, NoneReserved;
    if ids == [] {
      NoHistory(w.dao, w.registry);
    } else {
      var front, id := ids[..|ids| - 1], ids[|ids| - 1];
      assert ids == front + [id];
      assert forall i :: 0 <= i < |front| ==> front[i] == ids[i] < id;
      SettleAllKeepsOk(env, w, front);
      var w1 := SettleAll(env, w, front);
      assert id !in front && IsActive(w1.dao, id);
      SettleKeepsOk(env, w1, id);
      SettleOnly(env, w1, id);
      SettleTlds(env, w1, id);
      var w2 := Settle(env, w1, id);
      DaoHistoryTransitive(w.dao, w1.dao, w2.dao);
      RegistryHistoryTransitive(w.registry, w1.registry, w2.registry);
    }
  }

  lemma NoHistory(s: DaoState, r: RegistryState)
    ensures DaoHistory(s, s) && RegistryHistory(r, r)
  {
  }

  lemma SettleOnly(env: Env, w: World, id: nat)
    requires WorldOk(env, w) && IsActive(w.dao, id)
    ensures
      var w' := Settle(env, w, id);
      && id in w'.dao.proposals && IsFinished(w'.dao.proposals[id])
      && w'.dao.proposals == w.dao.proposals[id := w'.dao.proposals[id]]
  {
    hide Settle, WorldOk;
    SettleShape(env, w, id);
  }

  /**
   The end of a block keeps the invariant and the accounts, settles exactly the
   proposals that are due, and leaves none of them in its voting period.
   */
  lemma EndBlockerKeepsOk(env: Env, w: World)
    requires WorldOk(env, w)
    ensures
      var w' := EndBlocker(env, w);
      && WorldOk(env, w') && DaoHistory(w.dao, w'.dao) && RegistryHistory(w.registry, w'.registry)
      && w'.registry == w.registry.(tlds := w'.registry.tlds)
      && w'.height == w.height && w'.time == w.time
      && (forall d :: ForeignSupply(w', d) == ForeignSupply(w, d) && Surplus(env, w', d) == Surplus(env, w, d))
      && (forall id <- w.dao.proposals :: id in w'.dao.proposals &&
            if IsDue(w, id) then IsFinished(w'.dao.proposals[id])
            else w'.dao.proposals[id] == w.dao.proposals[id])
      && (forall id :: !IsDue(w', id))
      && (WonTldsPermitted(w) ==> WonTldsPermitted(w'))
      && (NoneReserved(w.registry) ==> NoneReserved(w'.registry))
  {
    hide WorldOk, DaoHistory, RegistryHistory, ForeignSupply, Surplus, SettleAll, Due;
    hide WonTldsPermitted, NoneReserved;
    DueLaw(w);
    var due := Due(w);
    SettleAllKeepsOk(env, w, due);
  }
}
