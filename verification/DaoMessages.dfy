/** Submitting and voting keep the invariant. */
module DaoMessages {
  import opened Wrappers
  import opened GoInts
  import opened MapTotals
  import opened Bank
  import opened Environment
  import opened Names
  import opened Registry
  import opened DaoTypes
  import opened Dao
  import opened DaoInvariant
  import opened DaoVoting

  ghost predicate HasRoom(s: DaoState) {
    s.nextId + 1 < TWO_64
  }

  // ---------- submission ----------

  function WithNew(s: DaoState, p: Proposal): DaoState {
    s.(nextId := s.nextId + 1, proposals := s.proposals[s.nextId := p])
  }

  lemma EscrowWithNew(s: DaoState, p: Proposal, d: Denom)
    requires s.nextId !in s.proposals && p.status == VotingPeriod
    ensures Escrow(WithNew(s, p), d) == Escrow(s, d) + AmountOf(Deposit(s.params, p.content), d)
  {
    var a := AmountOf(Deposit(s.params, p.content), d);
    assert EscrowEntries(WithNew(s, p), d) == EscrowEntries(s, d)[s.nextId := a];
    TotalInsert(EscrowEntries(s, d), s.nextId, a);
  }

  lemma AccountsWithNew(env: Env, s: DaoState, p: Proposal, d: Denom)
    requires s.nextId !in s.proposals && p.status == VotingPeriod
    ensures Burned(WithNew(s, p), d) == Burned(s, d) && Granted(WithNew(s, p), d) == Granted(s, d)
    ensures GrantedToDao(env, WithNew(s, p), d) == GrantedToDao(env, s, d)
  {
    hide Deposit, AmountOf;
    assert BurnedEntries(WithNew(s, p), d) == BurnedEntries(s, d);
    assert GrantEntries(WithNew(s, p), d) == GrantEntries(s, d);
    assert GrantEntriesTo(env, WithNew(s, p), DAO, d) == GrantEntriesTo(env, s, DAO, d);
  }

  lemma PayDepositEffect(b: BankState, a: Account, deposit: Coins, initial: Coins, d: Denom)
    requires PayDeposit(b, a, deposit, initial).Ok? && a != DAO
    ensures
      var b' := PayDeposit(b, a, deposit, initial).value;
      && Supply(b', d) == Supply(b, d)
      && Balance(b', DAO, d) == Balance(b, DAO, d) + AmountOf(deposit, d)
      && Balance(b', a, d) == Balance(b, a, d) - AmountOf(deposit, d)
  {
    if !IsZero(deposit) {
      SendBalance(b, a, DAO, deposit, DAO, d);
      SendBalance(b, a, DAO, deposit, a, d);
    }
  }

  lemma LotsWithNew(env: Env, s: DaoState, p: Proposal, height: nat)
    requires LotsOk(env, s, height) && s.nextId !in s.proposals && p.status == VotingPeriod
    ensures LotsOk(env, WithNew(s, p), height)
  {
    var s' := WithNew(s, p);
    forall k | k in s'.lots ensures LotOk(env, s', k, height) { assert LotOk(env, s, k, height); }
    forall id | IsVotingGrant(s', id) ensures HasLot(env, s', id) { assert IsVotingGrant(s, id); }
  }

  lemma DistinctWithNew(s: DaoState, p: Proposal)
    requires ActiveDistinct(s) && s.nextId !in s.proposals && !HasActiveTwin(s, p.content)
    ensures ActiveDistinct(WithNew(s, p))
  {
    var s' := WithNew(s, p);
    forall i, j | IsActive(s', i) && IsActive(s', j) && s'.proposals[i].content == s'.proposals[j].content
      ensures i == j
    {
      if i != s.nextId { assert IsActive(s, i); }
      if j != s.nextId { assert IsActive(s, j); }
    }
  }

  lemma NewProposalKeepsDao(env: Env, s: DaoState, p: Proposal, height: nat)
    requires ProposalsOk(env, s) && ActiveDistinct(s)
    requires VotesOk(env, s) && TalliesStored(s) && LotsOk(env, s, height)
    requires p.id == s.nextId && p.status == VotingPeriod
    requires ValidContent(env, p.content) && IsUserAddress(env, p.proposer)
    requires p.totalVotingPowerAtSnapshot >= 0
    requires p.content.AddTld? ==> !IsReservedTld(ToLower(p.content.tld))
    requires !HasActiveTwin(s, p.content)
    ensures
      var s' := WithNew(s, p);
      && ProposalsOk(env, s') && ActiveDistinct(s')
      && VotesOk(env, s') && TalliesStored(s') && LotsOk(env, s', height)
      && DaoHistory(s, s')
  {
    hide TallyOf, ValidContent, IsReservedTld, ToLower, LotsOk, ActiveDistinct, HasActiveTwin;
    var s' := WithNew(s, p);
    FreshId(env, s);
    LotsWithNew(env, s, p, height);
    DistinctWithNew(s, p);
    forall id | id in s'.proposals ensures ProposalOk(env, s', id) {
      if id != s.nextId { assert ProposalOk(env, s, id); }
    }
    forall k | k in s'.votes ensures VoteOk(env, s', k) { assert VoteOk(env, s, k); }
    forall id | id in s'.proposals && IsFinished(s'.proposals[id]) ensures TallyStored(s', id) {
      assert TallyStored(s, id);
    }
  }

  /** A submission moves the deposit into escrow and adds a proposal; nothing else. */
  lemma SubmitKeepsOk(env: Env, w: World, m: MsgSubmitProposal)
    requires WorldOk(env, w) && HasRoom(w.dao) && IsUserAddress(env, m.proposer)
    requires Submit(env, w, m).Ok?
    ensures
      var w' := Submit(env, w, m).value;
      && WorldOk(env, w') && DaoHistory(w.dao, w'.dao) && w'.registry == w.registry && w'.height == w.height
      && forall d :: ForeignSupply(w', d) == ForeignSupply(w, d) && Surplus(env, w', d) == Surplus(env, w, d)
  {
    hide TallyOf, ContentError, ValidContent, MatchesTldRegexp, IsReservedTld;
    hide PayDeposit, RegistryOk, Sound, HasActiveTwin;
    hide ProposalsOk, ActiveDistinct, VotesOk, TalliesStored, LotsOk, DaoHistory;
    var w', c, payer := Submit(env, w, m).value, m.content.content, env.parseAddress(m.proposer).value;
    if c.AddTld? { SubmittedTldIsNew(env, w, m); }
    var p := w'.dao.proposals[w.dao.nextId];
    assert Sound(w'.bank) by { PayDepositKeepsSound(w.bank, payer, Deposit(w.dao.params, c), m.initialDeposit); }
    SupplyNonNegative(w'.bank, w.dao.params.votingTokenDenom);
    NewProposalKeepsDao(env, w.dao, p, w.height);
    assert w.dao.nextId !in w.dao.proposals by { FreshId(env, w.dao); }
    forall d
      ensures Balance(w'.bank, DAO, d) >= Escrow(w'.dao, d)
      ensures ForeignSupply(w', d) == ForeignSupply(w, d) && Surplus(env, w', d) == Surplus(env, w, d)
    {
      EscrowWithNew(w.dao, p, d);
      AccountsWithNew(env, w.dao, p, d);
      PayDepositEffect(w.bank, payer, Deposit(w.dao.params, c), m.initialDeposit, d);
      assert Balance(w.bank, DAO, d) >= Escrow(w.dao, d);
    }
  }

  lemma FreshId(env: Env, s: DaoState)
    requires ProposalsOk(env, s)
    ensures s.nextId !in s.proposals
  {
    forall id | id in s.proposals ensures id < s.nextId { assert ProposalOk(env, s, id); }
  }

  lemma PayDepositKeepsSound(b: BankState, a: Account, deposit: Coins, initial: Coins)
    requires Sound(b) && ValidCoins(deposit) && PayDeposit(b, a, deposit, initial).Ok?
    ensures Sound(PayDeposit(b, a, deposit, initial).value)
  {
    if !IsZero(deposit) { SendKeepsSound(b, a, DAO, deposit); }
  }

  /** An AddTld proposal is only taken up for a label that is neither reserved nor permitted yet. */
  lemma SubmittedTldIsNew(env: Env, w: World, m: MsgSubmitProposal)
    requires Submit(env, w, m).Ok? && m.content.content.AddTld?
    ensures
      var tld := ToLower(m.content.content.tld);
      !IsReservedTld(tld) && tld !in w.registry.tlds
  {
    NormalizersAgree(m.content.content.tld);
  }

  // ---------- voting ----------

  lemma VotesOnly(env: Env, s: DaoState, s': DaoState, height: nat)
    requires ProposalsOk(env, s) && ActiveDistinct(s) && LotsOk(env, s, height)
    requires s' == s.(votes := s'.votes)
    ensures ProposalsOk(env, s') && ActiveDistinct(s') && LotsOk(env, s', height)
  {
    hide ValidContent, IsReservedTld, ToLower;
    forall id | id in s'.proposals ensures ProposalOk(env, s', id) { assert ProposalOk(env, s, id); }
    assert forall i :: IsActive(s', i) == IsActive(s, i);
    assert forall id :: IsVotingGrant(s', id) == IsVotingGrant(s, id);
    forall k | k in s'.lots ensures LotOk(env, s', k, height) { assert LotOk(env, s, k, height); }
    forall id | IsVotingGrant(s', id) ensures HasLot(env, s', id) { assert HasLot(env, s, id); }
  }

  lemma NewVoteKeepsDao(env: Env, s: DaoState, key: VoteKey, v: Vote, height: nat)
    requires ProposalsOk(env, s) && ActiveDistinct(s)
    requires VotesOk(env, s) && TalliesStored(s) && LotsOk(env, s, height)
    requires key !in s.votes && IsActive(s, key.proposal)
    requires v.proposalId == key.proposal && v.voter != "" && env.parseAddress(v.voter) == Some(key.voter)
    requires v.power > 0
    ensures
      var s' := s.(votes := s.votes[key := v]);
      && ProposalsOk(env, s') && ActiveDistinct(s')
      && VotesOk(env, s') && TalliesStored(s') && LotsOk(env, s', height)
      && DaoHistory(s, s')
  {
    hide TallyOf, ProposalsOk, ActiveDistinct, LotsOk;
    var s' := s.(votes := s.votes[key := v]);
    VotesOnly(env, s, s', height);
    forall k | k in s'.votes ensures VoteOk(env, s', k) {
      if k != key { assert VoteOk(env, s, k); }
    }
    forall id | id in s'.proposals && IsFinished(s'.proposals[id]) ensures TallyStored(s', id) {
      assert TallyStored(s, id);
      TallyOfOther(s.votes, id, key, v);
    }
  }

  /** A vote adds one entry, on a proposal in its voting period, and changes nothing else. */
  lemma CastVoteKeepsOk(env: Env, w: World, m: MsgVote)
    requires WorldOk(env, w) && env.parseAddress("") == None
    requires CastVote(env, w, m).Ok?
    ensures
      var w', key := CastVote(env, w, m).value, VoteKey(m.proposalId, env.parseAddress(m.voter).value);
      && WorldOk(env, w') && DaoHistory(w.dao, w'.dao) && key !in w.dao.votes
      && w' == w.(dao := w.dao.(votes := w'.dao.votes))
      && forall d :: ForeignSupply(w', d) == ForeignSupply(w, d) && Surplus(env, w', d) == Surplus(env, w, d)
  {
    hide VoterPower, RegistryOk, Sound, ProposalsOk, ActiveDistinct, TalliesStored, LotsOk, DaoHistory;
    var w', key := CastVote(env, w, m).value, VoteKey(m.proposalId, env.parseAddress(m.voter).value);
    forall k | k in w.dao.votes ensures w.dao.votes[k].voter != "" { assert VoteOk(env, w.dao, k); }
    PowerNonNegative(env, w.dao, w.bank, key.voter, w.height);
    NewVoteKeepsDao(env, w.dao, key, w'.dao.votes[key], w.height);
    forall d
      ensures Balance(w'.bank, DAO, d) >= Escrow(w'.dao, d)
      ensures ForeignSupply(w', d) == ForeignSupply(w, d) && Surplus(env, w', d) == Surplus(env, w, d)
    {
      assert Balance(w.bank, DAO, d) >= Escrow(w.dao, d);
    }
  }
}
