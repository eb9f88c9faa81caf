/**
 The keeper, message server and end blocker of x/dao as an object over its
 stores, the bank and the registry. SubmitProposal and Vote run in transactions
 (Deliver takes a failed one back); EndBlocker keeps whatever it did.
 */
module DaoKeeper {
  import opened Wrappers
  import opened GoInts
  import opened MapTotals
  import opened Bank
  import opened Environment
  import opened Names
  import opened Registry
  import opened Walks
  import opened DaoTypes
  import opened DaoDecision
  import opened VotingPower
  import opened Dao
  import Dns = RegistryKeeper

  class Keeper {
    const env: Env
    const bankKeeper: BankKeeper
    const dnsKeeper: Dns.Keeper
    var Params: DaoParams
    var ProposalSeq: nat
    var Proposals: map<nat, Proposal>
    var Votes: map<VoteKey, Vote>
    var VoterPowerLots: map<LotKey, Lot>

    ghost function State(): DaoState
      reads this
    {
      DaoState(Params, ProposalSeq, Proposals, Votes, VoterPowerLots)
    }

    /** The three modules' stores in a block of the given height and time. */
    ghost function Chain(height: nat, now: nat): World
      reads this, bankKeeper, dnsKeeper
    {
      World(height, now, State(), bankKeeper.state, dnsKeeper.State())
    }

    /** Proposals are stored under their ids. */
    ghost predicate Valid()
      reads this
    {
      forall id <- Proposals :: Proposals[id].id == id
    }

    constructor (env: Env, genesis: DaoParams, bankKeeper: BankKeeper, dnsKeeper: Dns.Keeper)
      ensures Valid() && this.env == env && this.bankKeeper == bankKeeper && this.dnsKeeper == dnsKeeper
      ensures State() == DaoState(GenesisParams(genesis), 0, map[], map[], map[])
    {
      this.env, this.bankKeeper, this.dnsKeeper := env, bankKeeper, dnsKeeper;
      var paramsToSet := genesis;
      if !ValidParams(paramsToSet) {
        paramsToSet := DEFAULT_PARAMS;
      }
      Params, ProposalSeq, Proposals, Votes, VoterPowerLots := paramsToSet, 0, map[], map[], map[];
    }

    // ---------- keeper.go ----------

    /** A walk that stops at the first lot it meets. */
    method IsLotBasedVotingActive() returns (foundOne: bool)
      ensures foundOne <==> VoterPowerLots != map[]
    {
      foundOne := false;
      if VoterPowerLots.Keys != {} {
        foundOne := true;
      }
    }

    method CalculateVoterPower(voter: Account, currentBlockHeight: nat) returns (totalPower: int)
      ensures totalPower == VoterPower(State(), bankKeeper.state, voter, currentBlockHeight)
    {
      hide LotPower;
      totalPower := 0;
      var lotBasedVotingActive := IsLotBasedVotingActive();
      if !lotBasedVotingActive {
        return Balance(bankKeeper.state, voter, Params.votingTokenDenom);
      }
      ghost var powers := LotPowers(State(), voter, currentBlockHeight);
      ghost var seen: map<LotKey, int> := map[];
      var left := set k | k in VoterPowerLots && k.holder == voter;
      while left != {}
        invariant left <= powers.Keys
        invariant seen == map k | k in powers && k !in left :: powers[k]
        invariant totalPower == Total(seen)
        decreases |left|
      {
        var key :| key in left;
        left := left - {key};
        totalPower := totalPower + LotPower(VoterPowerLots[key], Params.votingPowerDecayDurationBlocks, currentBlockHeight);
        TotalInsert(seen, key, powers[key]);
        seen := seen[key := powers[key]];
      }
      assert seen == powers;
    }

    // ---------- msg_server.go ----------

    /** The walk over all proposals for an active one with the same content. */
    method HasDuplicate(c: Content) returns (found: bool)
      ensures found == HasActiveTwin(State(), c)
    {
      var ids := Ascending(Proposals.Keys);
      for i := 0 to |ids|
        invariant forall j :: 0 <= j < i ==> !(IsActive(State(), ids[j]) && Proposals[ids[j]].content == c)
      {
        assert ids[i] in ids;
        var existing := Proposals[ids[i]];
        if existing.status == VotingPeriod {
          if existing.content == c {
            assert IsActive(State(), ids[i]);
            return true;
          }
        }
      }
      forall id | IsActive(State(), id) ensures Proposals[id].content != c {
        assert id in ids;
      }
      return false;
    }

    method CheckProposedTld(content: Content) returns (err: Option<DaoError>)
      ensures err == CheckTld(dnsKeeper.State(), content)
    {
      hide NormalizeName, IsReservedTld, NormalizeTld;
      err := None;
      if content.AddTld? {
        var normalizedProposedTLD := NormalizeName(content.tld);
        if IsReservedTld(normalizedProposedTLD) {
          return Some(TldReservedByIcann);
        }
        var isPermitted := dnsKeeper.IsTldPermitted(normalizedProposedTLD);
        if isPermitted {
          return Some(InvalidContent);
        }
      }
    }

    method TakeDeposit(proposer: Account, depositToPay: Coins, initialDeposit: Coins) returns (err: Option<DaoError>)
      modifies bankKeeper
      ensures
        match PayDeposit(old(bankKeeper.state), proposer, depositToPay, initialDeposit)
        case Ok(b) => err == None && bankKeeper.state == b
        case Err(e) => err == Some(e) && bankKeeper.state == old(bankKeeper.state)
    {
      err := None;
      if !IsZero(depositToPay) {
        var unpaid := bankKeeper.SendCoins(proposer, DAO, depositToPay);
        if unpaid.Some? {
          return Some(DepositNotPaid(unpaid.value));
        }
      } else {
        if !IsZero(initialDeposit) {
          return Some(UnexpectedDeposit);
        }
      }
    }

    method SubmitProposal(height: nat, now: nat, msg: MsgSubmitProposal) returns (r: Result<nat, DaoError>)
      requires Valid()
      modifies this, bankKeeper
      ensures
        match Submit(env, old(Chain(height, now)), msg)
        case Ok(w) => r == Ok(old(ProposalSeq)) && Chain(height, now) == w && Valid()
        case Err(e) => r == Err(e) && Chain(height, now) == old(Chain(height, now))
    {
      hide ContentError, ValidContent, CheckTld, PayDeposit, HasActiveTwin;
      var proposer := env.parseAddress(msg.proposer);
      if proposer.None? {
        return Err(DaoError.InvalidAddress);
      }
      if msg.content.NilContent? || msg.content.Undecodable? {
        return Err(InvalidContent);
      }
      var content := msg.content.content;
      var invalid := ContentError(env, content);
      if invalid.Some? {
        return Err(invalid.value);
      }
      var duplicate := HasDuplicate(content);
      if duplicate {
        return Err(DuplicateActiveProposal);
      }
      var refused := CheckProposedTld(content);
      if refused.Some? {
        return Err(refused.value);
      }
      var depositToPay := if content.AddTld? then Params.addTldProposalCost else Params.proposalSubmissionDeposit;
      var unpaid := TakeDeposit(proposer.value, depositToPay, msg.initialDeposit);
      if unpaid.Some? {
        return Err(unpaid.value);
      }
      var proposalID := ProposalSeq;
      ProposalSeq := NextId(ProposalSeq);
      var votingEndBlock := ToUint64(height + Params.votingPeriodBlocks);
      var proposal := Proposal(proposalID, msg.proposer, msg.title, msg.description, content, VotingPeriod,
                               height, height, votingEndBlock, 0, 0, 0,
                               Supply(bankKeeper.state, Params.votingTokenDenom));
      Proposals := Proposals[proposal.id := proposal];
      return Ok(proposalID);
    }

    method Vote(height: nat, now: nat, msg: MsgVote) returns (err: Option<DaoError>)
      requires Valid()
      modifies this`Votes
      ensures
        match CastVote(env, old(Chain(height, now)), msg)
        case Ok(w) => err == None && Chain(height, now) == w && Valid()
        case Err(e) => err == Some(e) && State() == old(State())
    {
      hide VoterPower;
      var voter := env.parseAddress(msg.voter);
      if voter.None? {
        return Some(DaoError.InvalidAddress);
      }
      if msg.proposalId !in Proposals {
        return Some(ProposalNotFound);
      }
      var proposal := Proposals[msg.proposalId];
      if proposal.status != VotingPeriod {
        return Some(InactiveProposal);
      }
      if height > proposal.votingEndBlock {
        return Some(VotingPeriodEnded);
      }
      var key := VoteKey(msg.proposalId, voter.value);
      if key in Votes && Votes[key].voter != "" {
        return Some(AlreadyVoted);
      }
      var votingPower := CalculateVoterPower(voter.value, height);
      if votingPower == 0 {
        return Some(NoVotingPower);
      }
      Votes := Votes[key := DaoTypes.Vote(msg.proposalId, msg.voter, msg.option, votingPower)];
      return None;
    }

    /** A submission as a transaction. */
    method Deliver(height: nat, now: nat, msg: MsgSubmitProposal) returns (r: Result<nat, DaoError>)
      requires Valid()
      modifies this, bankKeeper
      ensures Valid()
      ensures
        match Submit(env, old(Chain(height, now)), msg)
        case Ok(w) => r == Ok(old(ProposalSeq)) && Chain(height, now) == w
        case Err(e) => r == Err(e) && Chain(height, now) == old(Chain(height, now))
    {
      hide Submit;
      var before := bankKeeper.state;
      r := SubmitProposal(height, now, msg);
      if r.Err? {
        bankKeeper.state := before;
      }
    }

    // ---------- end_blocker.go ----------

    /** The walk over the votes on one proposal, in any order. */
    method TallyVotes(id: nat) returns (yesVotes: int, noVotes: int, abstainVotes: int, totalVotingPowerVoted: int)
      ensures Tally(yesVotes, noVotes, abstainVotes, totalVotingPowerVoted) == TallyOf(Votes, id)
    {
      hide TallyOf;
      yesVotes, noVotes, abstainVotes, totalVotingPowerVoted := 0, 0, 0, 0;
      ghost var seen: map<VoteKey, DaoTypes.Vote> := map[];
      var left := set k | k in Votes && k.proposal == id;
      NothingCounted(id);
      while left != {}
        invariant forall k <- left :: k in Votes && k.proposal == id
        invariant seen == map k | k in Votes && k.proposal == id && k !in left :: Votes[k]
        invariant Tally(yesVotes, noVotes, abstainVotes, totalVotingPowerVoted) == TallyOf(seen, id)
        decreases |left|
      {
        var key :| key in left;
        var vote := Votes[key];
        TallyWithVote(seen, id, key, vote);
        var votingPower := vote.power;
        if vote.option == OPTION_YES {
          yesVotes := yesVotes + votingPower;
        } else if vote.option == OPTION_NO {
          noVotes := noVotes + votingPower;
        } else if vote.option == OPTION_ABSTAIN {
          abstainVotes := abstainVotes + votingPower;
        }
        if vote.option != OPTION_UNSPECIFIED {
          totalVotingPowerVoted := totalVotingPowerVoted + votingPower;
        }
        left := left - {key};
        seen := seen[key := vote];
      }
      TallyOfOwnVotes(Votes, id, seen);
    }

    method ExecuteAddTld(tld: string) returns (ok: bool)
      modifies dnsKeeper`PermittedTLDs
      ensures
        match AddPermittedTld(old(dnsKeeper.State()), tld)
        case Ok(r) => ok && dnsKeeper.State() == r
        case Err(_) => !ok && dnsKeeper.State() == old(dnsKeeper.State())
    {
      var err := dnsKeeper.AddPermittedTld(tld);
      ok := err.None?;
    }

    method ExecuteRequestTokens(height: nat, c: Content, id: nat) returns (ok: bool)
      requires c.RequestTokens?
      modifies this`VoterPowerLots, bankKeeper
      ensures
        match env.parseAddress(c.recipient)
        case None => !ok && State() == old(State()) && bankKeeper.state == old(bankKeeper.state)
        case Some(to) =>
          && (bankKeeper.state, ok) == Grant(old(bankKeeper.state), to, c.amount)
          && VoterPowerLots == if ok then GrantLot(old(State()), to, id, c, height) else old(VoterPowerLots)
    {
      var recipient := env.parseAddress(c.recipient);
      if recipient.None? {
        return false;
      }
      bankKeeper.MintCoins(DAO, c.amount);
      var unsent := bankKeeper.SendCoinsToAccount(DAO, recipient.value, c.amount);
      if unsent.Some? {
        var unburned := bankKeeper.BurnCoins(DAO, c.amount);
        return false;
      }
      SetLots(height, recipient.value, c, id);
      return true;
    }

    /** The loop over the granted coins. */
    method SetLots(height: nat, recipient: Account, c: Content, id: nat)
      requires c.RequestTokens?
      modifies this`VoterPowerLots
      ensures VoterPowerLots == GrantLot(old(State()), recipient, id, c, height)
    {
      var denom, left := Params.votingTokenDenom, c.amount.Keys;
      while left != {}
        invariant left <= c.amount.Keys
        invariant VoterPowerLots ==
          if denom in c.amount && denom !in left then GrantLot(old(State()), recipient, id, c, height)
          else old(VoterPowerLots)
        decreases |left|
      {
        var coin :| coin in left;
        if coin == denom && c.amount[coin] > 0 {
          var lot := Lot(c.recipient, id, c.amount[coin], height);
          VoterPowerLots := VoterPowerLots[LotKey(recipient, id) := lot];
        }
        left := left - {coin};
      }
    }

    method ExecuteProposal(height: nat, ghost now: nat, proposal: Proposal) returns (ok: bool)
      modifies this`VoterPowerLots, bankKeeper, dnsKeeper`PermittedTLDs
      ensures (Chain(height, now), ok) == Execute(env, old(Chain(height, now)), proposal.id, proposal.content)
    {
      hide AddPermittedTld, Grant;
      match proposal.content
      case AddTld(tld, _) => ok := ExecuteAddTld(tld);
      case RequestTokens(_, _, _) => ok := ExecuteRequestTokens(height, proposal.content, proposal.id);
    }

    method SettleTheDeposit(proposal: Proposal)
      modifies bankKeeper
      ensures
        bankKeeper.state == SettleDeposit(env, old(bankKeeper.state), proposal.proposer, proposal.status,
                                          Deposit(Params, proposal.content))
    {
      var depositToHandle := Params.proposalSubmissionDeposit;
      if proposal.content.AddTld? {
        depositToHandle := Params.addTldProposalCost;
      }
      if !IsZero(depositToHandle) {
        if proposal.status == Executed {
          var proposerAddr := env.parseAddress(proposal.proposer);
          if proposerAddr.Some? {
            var failed := bankKeeper.SendCoinsToAccount(DAO, proposerAddr.value, depositToHandle);
          }
        } else {
          var failed := bankKeeper.BurnCoins(DAO, depositToHandle);
        }
      }
    }

    /** The body of EndBlocker's loop, on a proposal copied before the loop began. */
    method Process(height: nat, ghost now: nat, due: Proposal)
      requires Valid() && due.id in Proposals && Proposals[due.id] == due
      modifies this, bankKeeper, dnsKeeper`PermittedTLDs
      ensures Chain(height, now) == Settle(env, old(Chain(height, now)), due.id) && Valid()
      ensures Proposals == old(Proposals)[due.id := Proposals[due.id]]
    {
      hide TallyOf, Execute, SettleDeposit, Accepts;
      ghost var before := Chain(height, now);
      ExecuteKeepsProposals(env, before, due.id, due.content);
      var proposal := due;
      var yes, no, abstain, voted := TallyVotes(proposal.id);
      proposal := proposal.(yesVotes := yes, noVotes := no, abstainVotes := abstain);
      var status := Decide(Params, proposal.totalVotingPowerAtSnapshot, yes, no, voted);
      proposal := proposal.(status := status);
      if proposal.status == Passed {
        var ok := ExecuteProposal(height, now, proposal);
        proposal := proposal.(status := if ok then Executed else Failed);
      }
      SettleTheDeposit(proposal);
      Proposals := Proposals[proposal.id := proposal];
    }

    /** Copies of the proposals with the given ids. */
    ghost predicate AreCopies(todo: seq<Proposal>, ids: seq<nat>)
      reads this
    {
      |todo| == |ids| && forall i :: 0 <= i < |ids| ==> ids[i] in Proposals && todo[i] == Proposals[ids[i]]
    }

    /** The walk that collects the proposals whose voting period is over. */
    method CollectDue(height: nat, ghost now: nat) returns (proposalsToProcess: seq<Proposal>)
      ensures AreCopies(proposalsToProcess, Due(Chain(height, now)))
    {
      hide DueIds;
      proposalsToProcess := [];
      var ids := Ascending(Proposals.Keys);
      ghost var w := Chain(height, now);
      NoneDue(w, ids);
      for i := 0 to |ids|
        invariant AreCopies(proposalsToProcess, DueIds(w, ids[..i]))
      {
        assert ids[i] in ids;
        DueIdsStep(w, ids, i);
        var proposal := Proposals[ids[i]];
        if proposal.status == VotingPeriod && height > proposal.votingEndBlock {
          proposalsToProcess := proposalsToProcess + [proposal];
        }
      }
      assert ids[..|ids|] == ids;
    }

    method EndBlocker(height: nat, ghost now: nat)
      requires Valid()
      modifies this, bankKeeper, dnsKeeper`PermittedTLDs
      ensures Chain(height, now) == Dao.EndBlocker(env, old(Chain(height, now))) && Valid()
    {
      hide Settle, SettleAll, Valid, Due, Dao.EndBlocker, IsAscending, Pending;
      ghost var w := Chain(height, now);
      ghost var due := Due(w);
      EndBlockerIs(env, w);
      var proposalsToProcess := CollectDue(height, now);
      SettleAllNone(env, w, due);
      AllPending(proposalsToProcess, due, Proposals);
      for i := 0 to |proposalsToProcess|
        invariant Valid() && Pending(proposalsToProcess, due, i, Proposals)
        invariant Chain(height, now) == SettleAll(env, w, due[..i])
      {
        NextPending(proposalsToProcess, due, i, Proposals);
        StoredId(due[i]);
        SettleAllStep(env, w, due, i);
        ghost var before := Proposals;
        Process(height, now, proposalsToProcess[i]);
        StillPending(proposalsToProcess, due, i, before, Proposals[due[i]]);
      }
      assert due[..|due|] == due;
    }

    lemma StoredId(id: nat)
      requires Valid() && id in Proposals
      ensures Proposals[id].id == id
    {
    }
  }

  /** The copies from position i on are still the stored proposals. */
  ghost predicate Pending(todo: seq<Proposal>, due: seq<nat>, i: nat, stored: map<nat, Proposal>) {
    forall j :: i <= j < |due| && j < |todo| ==> due[j] in stored && todo[j] == stored[due[j]]
  }

  lemma AllPending(todo: seq<Proposal>, due: seq<nat>, stored: map<nat, Proposal>)
    requires |todo| == |due| && forall j :: 0 <= j < |due| ==> due[j] in stored && todo[j] == stored[due[j]]
    ensures Pending(todo, due, 0, stored)
  {
  }

  lemma NextPending(todo: seq<Proposal>, due: seq<nat>, i: nat, stored: map<nat, Proposal>)
    requires Pending(todo, due, i, stored) && i < |due| && i < |todo|
    ensures due[i] in stored && todo[i] == stored[due[i]]
  {
  }

  /** Settling one proposal leaves the later ones alone: no id is due twice. */
  lemma StillPending(todo: seq<Proposal>, due: seq<nat>, i: nat, stored: map<nat, Proposal>, settled: Proposal)
    requires Pending(todo, due, i, stored) && i < |due| && IsAscending(due)
    ensures Pending(todo, due, i + 1, stored[due[i] := settled])
  {
  }

  lemma NothingCounted(id: nat)
    ensures TallyOf(map[], id) == Tally(0, 0, 0, 0)
  {
    assert Bucket(map[], id, OPTION_YES) == map[];
    assert Bucket(map[], id, OPTION_NO) == map[];
    assert Bucket(map[], id, OPTION_ABSTAIN) == map[];
    assert Turnout(map[], id) == map[];
  }

  lemma TallyOfOwnVotes(votes: map<VoteKey, Vote>, id: nat, own: map<VoteKey, Vote>)
    requires own == map k | k in votes && k.proposal == id :: votes[k]
    ensures TallyOf(own, id) == TallyOf(votes, id)
  {
    assert Bucket(own, id, OPTION_YES) == Bucket(votes, id, OPTION_YES);
    assert Bucket(own, id, OPTION_NO) == Bucket(votes, id, OPTION_NO);
    assert Bucket(own, id, OPTION_ABSTAIN) == Bucket(votes, id, OPTION_ABSTAIN);
    assert Turnout(own, id) == Turnout(votes, id);
  }

  lemma ExecuteKeepsProposals(env: Env, w: World, id: nat, c: Content)
    ensures Execute(env, w, id, c).0.dao == w.dao.(lots := Execute(env, w, id, c).0.dao.lots)
  {
  }

  lemma EndBlockerIs(env: Env, w: World)
    ensures forall j :: 0 <= j < |Due(w)| ==> Due(w)[j] in w.dao.proposals
    ensures Dao.EndBlocker(env, w) == SettleAll(env, w, Due(w))
    ensures IsAscending(Due(w))
  {
    hide SettleAll, Due;
    DueLaw(w);
  }

  lemma NoneDue(w: World, ids: seq<nat>)
    ensures DueIds(w, ids[..0]) == []
  {
  }

  lemma DueIdsStep(w: World, ids: seq<nat>, i: nat)
    requires i < |ids|
    ensures DueIds(w, ids[..i + 1]) == DueIds(w, ids[..i]) + if IsDue(w, ids[i]) then [ids[i]] else []
  {
    assert ids[..i + 1][..i] == ids[..i] && ids[..i + 1][i] == ids[i];
  }

  lemma SettleAllNone(env: Env, w: World, ids: seq<nat>)
    ensures SettleAll(env, w, ids[..0]) == w
  {
  }

  lemma SettleAllStep(env: Env, w: World, ids: seq<nat>, i: nat)
    requires i < |ids| && forall j :: 0 <= j < |ids| ==> ids[j] in w.dao.proposals
    ensures ids[i] in SettleAll(env, w, ids[..i]).dao.proposals
    ensures SettleAll(env, w, ids[..i + 1]) == Settle(env, SettleAll(env, w, ids[..i]), ids[i])
  {
    hide Settle;
    assert ids[..i + 1][..i] == ids[..i] && ids[..i + 1][i] == ids[i];
  }
}
