/**
 What an accepted submission and an accepted vote do, exactly when they are
 accepted, and what an error says about the one that is not.
 */
module DaoEffects {
  import opened Wrappers
  import opened GoInts
  import opened MapTotals
  import opened Bank
  import opened Environment
  import opened Names
  import opened Registry
  import opened DaoTypes
  import opened VotingPower
  import opened Dao
  import opened DaoInvariant
  import opened DaoVoting
  import opened DaoMessages
  import DaoKeeper

  // ---------- voting ----------

  /** Before the first grant a voter weighs the balance; afterwards the decayed amounts of the own lots. */
  lemma PowerIs(env: Env, s: DaoState, b: BankState, voter: Account, height: nat)
    requires LotsOk(env, s, height) && height < TWO_64 && s.params.votingPowerDecayDurationBlocks < TWO_63
    ensures s.lots == map[] ==> VoterPower(s, b, voter, height) == Balance(b, voter, s.params.votingTokenDenom)
    ensures
      s.lots != map[] ==>
        VoterPower(s, b, voter, height) ==
          Total(map k | k in s.lots && k.holder == voter ::
            if s.params.votingPowerDecayDurationBlocks == 0 then s.lots[k].amount
            else CurrentAmount(s.lots[k], height, s.params.votingPowerDecayDurationBlocks))
  {
    hide LotPower;
    var decay := s.params.votingPowerDecayDurationBlocks;
    var powers := LotPowers(s, voter, height);
    forall k | k in powers
      ensures powers[k] == if decay == 0 then s.lots[k].amount else CurrentAmount(s.lots[k], height, decay)
    {
      assert LotOk(env, s, k, height);
      if decay == 0 {
        NoDecay(s.lots[k], height);
      } else {
        LotPowerIsDecayed(s.lots[k], decay, height);
      }
    }
    var amounts := map k | k in s.lots && k.holder == voter ::
      if decay == 0 then s.lots[k].amount else CurrentAmount(s.lots[k], height, decay);
    assert powers == amounts;
  }

  /** The amount times what is left of the decay duration, to 18 digits, rounded down. */
  function CurrentAmount(lot: Lot, height: nat, decay: nat): int
    requires decay > 0
  {
    if height < lot.grantHeight || height - lot.grantHeight >= decay then 0
    else
      var passed := (height - lot.grantHeight) * 1_000_000_000_000_000_000 / decay;
      lot.amount * (1_000_000_000_000_000_000 - passed) / 1_000_000_000_000_000_000
  }

  /** A vote is accepted on an open proposal, in time, once per voter, and from voters with power. */
  lemma VoteAccepted(env: Env, w: World, m: MsgVote)
    requires WorldOk(env, w) && env.parseAddress("") == None
    ensures
      CastVote(env, w, m).Ok? <==>
        && m.proposalId in w.dao.proposals && env.parseAddress(m.voter).Some?
        && var p, voter := w.dao.proposals[m.proposalId], env.parseAddress(m.voter).value;
           && p.status == VotingPeriod && w.height <= p.votingEndBlock
           && VoteKey(m.proposalId, voter) !in w.dao.votes
           && VoterPower(w.dao, w.bank, voter, w.height) > 0
  {
    hide VoterPower, Sound, RegistryOk, ProposalsOk, ActiveDistinct, TalliesStored, Solvent;
    forall k | k in w.dao.votes ensures w.dao.votes[k].voter != "" { assert VoteOk(env, w.dao, k); }
    if env.parseAddress(m.voter).Some? {
      PowerNonNegative(env, w.dao, w.bank, env.parseAddress(m.voter).value, w.height) by { WorldParts(env, w); }
    }
  }

  lemma WorldParts(env: Env, w: World)
    requires WorldOk(env, w)
    ensures ValidParams(w.dao.params) && LotsOk(env, w.dao, w.height) && Sound(w.bank) && RegistryOk(w.registry)
    ensures ProposalsOk(env, w.dao) && VotesOk(env, w.dao)
  {
  }

  /**
   An accepted vote, with lots or without: 1 is counted as YES, 2 as NO, 3 as
   ABSTAIN, each and any other number but 0 in the turnout, with the voter's
   power; no other total of any proposal and no other vote changes.
   */
  lemma VoteCounted(env: Env, w: World, m: MsgVote, other: nat)
    requires WorldOk(env, w) && env.parseAddress("") == None && CastVote(env, w, m).Ok?
    ensures env.parseAddress(m.voter).Some?
    ensures
      var w', id, voter := CastVote(env, w, m).value, m.proposalId, env.parseAddress(m.voter).value;
      var power, t, t' := VoterPower(w.dao, w.bank, voter, w.height), TallyOf(w.dao.votes, id), TallyOf(w'.dao.votes, id);
      && t'.yes == t.yes + (if m.option == 1 then power else 0)
      && t'.no == t.no + (if m.option == 2 then power else 0)
      && t'.abstain == t.abstain + (if m.option == 3 then power else 0)
      && t'.voted == t.voted + (if m.option == 0 then 0 else power)
      && (other != id ==> TallyOf(w'.dao.votes, other) == TallyOf(w.dao.votes, other))
      && w' == w.(dao := w.dao.(votes :=
           w.dao.votes[VoteKey(id, voter) := Vote(id, m.voter, m.option, power)]))
  {
    hide VoterPower, TallyOf, WorldOk;
    VoteAccepted(env, w, m);
    var voter := env.parseAddress(m.voter).value;
    var key, v := VoteKey(m.proposalId, voter), CastVote(env, w, m).value.dao.votes[VoteKey(m.proposalId, voter)];
    TallyWithVote(w.dao.votes, m.proposalId, key, v);
    if other != m.proposalId { TallyOfOther(w.dao.votes, other, key, v); }
  }

  /** The totals of a proposal without votes; with VoteCounted this determines every total. */
  lemma NoVotesNoTotals(votes: map<VoteKey, Vote>, id: nat)
    requires forall k <- votes :: k.proposal != id
    ensures TallyOf(votes, id) == Tally(0, 0, 0, 0)
  {
    hide TallyOf;
    var own: map<VoteKey, Vote> := map[];
    DaoKeeper.NothingCounted(id);
    DaoKeeper.TallyOfOwnVotes(votes, id, own);
  }

  lemma VoteErrorsAreTrue(env: Env, w: World, m: MsgVote)
    requires CastVote(env, w, m).Err?
    ensures
      var voter, id := env.parseAddress(m.voter), m.proposalId;
      match CastVote(env, w, m).error
      case InvalidAddress => voter == None
      case ProposalNotFound => id !in w.dao.proposals
      case InactiveProposal => id in w.dao.proposals && w.dao.proposals[id].status != VotingPeriod
      case VotingPeriodEnded => id in w.dao.proposals && w.height > w.dao.proposals[id].votingEndBlock
      case AlreadyVoted => voter.Some? && VoteKey(id, voter.value) in w.dao.votes
      case NoVotingPower => voter.Some? && VoterPower(w.dao, w.bank, voter.value, w.height) == 0
      case _ => false
  {
    hide VoterPower;
  }

  // ---------- submission ----------

  /** What a proposal costs: an AddTld its own price, any other the general deposit. */
  function Price(s: DaoState, c: Content): Coins {
    match c
    case AddTld(_, _) => s.params.addTldProposalCost
    case RequestTokens(_, _, _) => s.params.proposalSubmissionDeposit
  }

  lemma PriceIsDeposit(s: DaoState, c: Content)
    ensures Deposit(s.params, c) == Price(s, c)
  {
  }

  /** A submission is accepted for a valid content of which no twin is open, for a free label, and paid. */
  lemma SubmitAccepted(env: Env, w: World, m: MsgSubmitProposal)
    requires WorldOk(env, w)
    ensures
      Submit(env, w, m).Ok? <==>
        && env.parseAddress(m.proposer).Some? && m.content.Packed?
        && var c := m.content.content;
           && ValidContent(env, c)
           && (forall id <- w.dao.proposals ::
                 !(w.dao.proposals[id].status == VotingPeriod && w.dao.proposals[id].content == c))
           && (c.AddTld? ==> ToLower(c.tld) !in RESERVED_TLDS && ToLower(c.tld) !in w.registry.tlds)
           && (forall d <- Price(w.dao, c) ::
                 Balance(w.bank, env.parseAddress(m.proposer).value, d) >= Price(w.dao, c)[d])
           && (Price(w.dao, c) == map[] ==> IsZero(m.initialDeposit))
  {
    hide ToLower, ValidContent, WorldOk, IsZero, Covers;
    if env.parseAddress(m.proposer).Some? && m.content.Packed? && ValidContent(env, m.content.content) {
      var c := m.content.content;
      if c.AddTld? { FreeLabel(env, w, c); }
      assert ValidParams(w.dao.params) by { WorldParts(env, w); }
      PriceIsDeposit(w.dao, c);
      DepositPaid(w.bank, env.parseAddress(m.proposer).value, Price(w.dao, c), m.initialDeposit);
    }
  }

  lemma DepositPaid(b: BankState, payer: Account, deposit: Coins, initial: Coins)
    requires ValidCoins(deposit)
    ensures
      PayDeposit(b, payer, deposit, initial).Ok? <==>
        && (forall d <- deposit :: Balance(b, payer, d) >= deposit[d])
        && (deposit == map[] ==> IsZero(initial))
  {
    if deposit == map[] {
      assert IsZero(deposit);
    } else {
      var d :| d in deposit;
      assert deposit[d] > 0;
    }
  }

  lemma FreeLabel(env: Env, w: World, c: Content)
    requires c.AddTld? && ValidContent(env, c)
    ensures CheckTld(w.registry, c) == None <==> ToLower(c.tld) !in RESERVED_TLDS && ToLower(c.tld) !in w.registry.tlds
  {
    hide NormalizeName, NormalizeTld, ToLower;
    NormalizersAgree(c.tld);
  }

  /**
   An accepted submission in full: the new proposal, field by field, under the
   next id; the price goes from the proposer to the module; nothing else.
   */
  lemma SubmitEffect(env: Env, w: World, m: MsgSubmitProposal, x: Account, d: Denom)
    requires WorldOk(env, w) && DaoMessages.HasRoom(w.dao) && Submit(env, w, m).Ok?
    requires w.height + w.dao.params.votingPeriodBlocks < TWO_64
    ensures env.parseAddress(m.proposer).Some? && m.content.Packed?
    ensures
      var w', c, proposer := Submit(env, w, m).value, m.content.content, env.parseAddress(m.proposer).value;
      var price := AmountOf(Price(w.dao, c), d);
      && w' == w.(bank := w'.bank, dao := w.dao.(
           nextId := w.dao.nextId + 1,
           proposals := w.dao.proposals[w.dao.nextId := Proposal(
             w.dao.nextId, m.proposer, m.title, m.description, c, VotingPeriod,
             w.height, w.height, w.height + w.dao.params.votingPeriodBlocks, 0, 0, 0,
             Supply(w.bank, w.dao.params.votingTokenDenom))]))
      && Balance(w'.bank, x, d) ==
           Balance(w.bank, x, d) - (if x == proposer then price else 0) + (if x == DAO then price else 0)
      && Supply(w'.bank, d) == Supply(w.bank, d)
  {
    hide CheckTld, PayDeposit, HasActiveTwin, ContentError, ValidContent, WorldOk;
    var c, proposer := m.content.content, env.parseAddress(m.proposer).value;
    PriceIsDeposit(w.dao, c);
    PaidDeposit(w.bank, proposer, Price(w.dao, c), m.initialDeposit, x, d);
    PaidDeposit(w.bank, proposer, Price(w.dao, c), m.initialDeposit, x, w.dao.params.votingTokenDenom);
  }

  lemma PaidDeposit(b: BankState, payer: Account, deposit: Coins, initial: Coins, x: Account, d: Denom)
    requires PayDeposit(b, payer, deposit, initial).Ok?
    ensures
      var b', n := PayDeposit(b, payer, deposit, initial).value, AmountOf(deposit, d);
      && Balance(b', x, d) == Balance(b, x, d) - (if x == payer then n else 0) + (if x == DAO then n else 0)
      && Supply(b', d) == Supply(b, d)
  {
    if !IsZero(deposit) { SendBalance(b, payer, DAO, deposit, x, d); }
  }

  lemma SubmitErrorsAreTrue(env: Env, w: World, m: MsgSubmitProposal)
    requires Submit(env, w, m).Err?
    ensures
      var c := m.content;
      match Submit(env, w, m).error
      case InvalidAddress =>
        || env.parseAddress(m.proposer) == None
        || (c.Packed? && ContentError(env, c.content) == Some(DaoError.InvalidAddress))
      case InvalidRequest => c.Packed? && ContentError(env, c.content) == Some(DaoError.InvalidRequest)
      case InvalidCoins => c.Packed? && ContentError(env, c.content) == Some(DaoError.InvalidCoins)
      case InvalidContent =>
        !c.Packed? || (c.content.AddTld? && IsPermitted(w.registry, NormalizeName(c.content.tld)))
      case DuplicateActiveProposal =>
        c.Packed? && exists id :: IsActive(w.dao, id) && w.dao.proposals[id].content == c.content
      case TldReservedByIcann => c.Packed? && c.content.AddTld? && IsReservedTld(c.content.tld)
      case DepositNotPaid(why) => c.Packed? && why == InsufficientFunds && !IsZero(Price(w.dao, c.content))
      case UnexpectedDeposit => c.Packed? && IsZero(Price(w.dao, c.content)) && !IsZero(m.initialDeposit)
      case _ => false
  {
    hide NormalizeName, ValidContent, IsPermitted;
    if m.content.Packed? {
      ContentErrorKinds(env, m.content.content);
      PriceIsDeposit(w.dao, m.content.content);
      if m.content.content.AddTld? { NormalizeNameTwice(m.content.content.tld); }
    }
  }
}
