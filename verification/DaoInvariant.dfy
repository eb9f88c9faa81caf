/**
 What every step of x/dao keeps: the invariant of its stores, the accounts that
 link deposits, grants and supply, and what never changes once written.
 */
module DaoInvariant {
  import opened Wrappers
  import opened MapTotals
  import opened Bank
  import opened Environment
  import opened Names
  import opened Registry
  import opened DaoTypes
  import opened Dao

  // ---------- the invariant ----------

  ghost predicate IsUserAddress(env: Env, text: string) {
    env.parseAddress(text).Some? && env.parseAddress(text).value.User?
  }

  ghost predicate ProposalOk(env: Env, s: DaoState, id: nat)
    requires id in s.proposals
  {
    var p := s.proposals[id];
    && p.id == id && id < s.nextId
    && p.status in {VotingPeriod, Rejected, Executed, Failed}
    && ValidContent(env, p.content) && IsUserAddress(env, p.proposer)
    && p.totalVotingPowerAtSnapshot >= 0
    && (p.content.AddTld? ==> !IsReservedTld(ToLower(p.content.tld)))
  }

  ghost predicate ProposalsOk(env: Env, s: DaoState) {
    forall id <- s.proposals :: ProposalOk(env, s, id)
  }

  /** No two proposals in their voting period have the same content. */
  ghost predicate ActiveDistinct(s: DaoState) {
    forall i, j :: IsActive(s, i) && IsActive(s, j) && s.proposals[i].content == s.proposals[j].content ==> i == j
  }

  ghost predicate VoteOk(env: Env, s: DaoState, k: VoteKey)
    requires k in s.votes
  {
    var v := s.votes[k];
    && k.proposal in s.proposals && v.proposalId == k.proposal
    && v.voter != "" && env.parseAddress(v.voter) == Some(k.voter)
    && v.power > 0
  }

  ghost predicate VotesOk(env: Env, s: DaoState) {
    forall k <- s.votes :: VoteOk(env, s, k)
  }

  /** The totals stored in a finished proposal are the sums over the vote store. */
  ghost predicate TallyStored(s: DaoState, id: nat)
    requires id in s.proposals
  {
    var p, t := s.proposals[id], TallyOf(s.votes, id);
    p.yesVotes == t.yes && p.noVotes == t.no && p.abstainVotes == t.abstain
  }

  ghost predicate TalliesStored(s: DaoState) {
    forall id <- s.proposals :: IsFinished(s.proposals[id]) ==> TallyStored(s, id)
  }

  ghost predicate IsVotingGrant(s: DaoState, id: nat) {
    && id in s.proposals && s.proposals[id].status == Executed
    && s.proposals[id].content.RequestTokens?
    && s.params.votingTokenDenom in s.proposals[id].content.amount
  }

  /** The lot belongs to an executed grant of exactly its amount, at a past block. */
  ghost predicate LotOk(env: Env, s: DaoState, k: LotKey, height: nat)
    requires k in s.lots
  {
    && IsVotingGrant(s, k.proposal)
    && var c, lot := s.proposals[k.proposal].content, s.lots[k];
       && env.parseAddress(c.recipient) == Some(k.holder)
       && lot.voter == c.recipient && lot.grantedBy == k.proposal
       && lot.amount == c.amount[s.params.votingTokenDenom] > 0
       && lot.grantHeight <= height
  }

  ghost predicate HasLot(env: Env, s: DaoState, id: nat)
    requires IsVotingGrant(s, id)
  {
    var holder := env.parseAddress(s.proposals[id].content.recipient);
    holder.Some? && LotKey(holder.value, id) in s.lots
  }

  /** Lots and executed grants of the voting token correspond one to one. */
  ghost predicate LotsOk(env: Env, s: DaoState, height: nat) {
    && (forall k <- s.lots :: LotOk(env, s, k, height))
    && (forall id :: IsVotingGrant(s, id) ==> HasLot(env, s, id))
  }

  /** The deposits of the proposals in their voting period, in one denomination. */
  function EscrowEntries(s: DaoState, d: Denom): map<nat, int> {
    map id | id in s.proposals && s.proposals[id].status == VotingPeriod ::
      AmountOf(Deposit(s.params, s.proposals[id].content), d)
  }

  ghost function Escrow(s: DaoState, d: Denom): int {
    Total(EscrowEntries(s, d))
  }

  /** The module account can pay out every deposit it holds. */
  ghost predicate Solvent(w: World) {
    forall d :: Balance(w.bank, DAO, d) >= Escrow(w.dao, d)
  }

  ghost predicate WorldOk(env: Env, w: World) {
    && ValidParams(w.dao.params)
    && ProposalsOk(env, w.dao) && ActiveDistinct(w.dao)
    && VotesOk(env, w.dao) && TalliesStored(w.dao)
    && LotsOk(env, w.dao, w.height)
    && Solvent(w) && Sound(w.bank) && RegistryOk(w.registry)
  }

  // ---------- the accounts ----------

  /** The deposits burned for rejected and failed proposals. */
  function BurnedEntries(s: DaoState, d: Denom): map<nat, int> {
    map id | id in s.proposals && s.proposals[id].status in {Rejected, Failed} ::
      AmountOf(Deposit(s.params, s.proposals[id].content), d)
  }

  /** The amounts minted by executed grants; with `to`, only those to one account. */
  function GrantEntries(s: DaoState, d: Denom): map<nat, int> {
    map id | id in s.proposals && s.proposals[id].status == Executed && s.proposals[id].content.RequestTokens? ::
      AmountOf(s.proposals[id].content.amount, d)
  }

  function GrantEntriesTo(env: Env, s: DaoState, to: Account, d: Denom): map<nat, int> {
    map id | id in s.proposals && s.proposals[id].status == Executed && s.proposals[id].content.RequestTokens?
             && env.parseAddress(s.proposals[id].content.recipient) == Some(to) ::
      AmountOf(s.proposals[id].content.amount, d)
  }

  ghost function Burned(s: DaoState, d: Denom): int { Total(BurnedEntries(s, d)) }
  ghost function Granted(s: DaoState, d: Denom): int { Total(GrantEntries(s, d)) }
  ghost function GrantedToDao(env: Env, s: DaoState, d: Denom): int { Total(GrantEntriesTo(env, s, DAO, d)) }

  /** Supply without what the module created and with what it destroyed: other modules' business. */
  ghost function ForeignSupply(w: World, d: Denom): int {
    Supply(w.bank, d) - Granted(w.dao, d) + Burned(w.dao, d)
  }

  /** What the module account holds beyond its escrow and the grants to itself: gifts. */
  ghost function Surplus(env: Env, w: World, d: Denom): int {
    Balance(w.bank, DAO, d) - Escrow(w.dao, d) - GrantedToDao(env, w.dao, d)
  }

  // ---------- what never changes ----------

  /** Only the status and the totals of a proposal ever change. */
  ghost predicate SameProposal(p: Proposal, p': Proposal) {
    p' == p.(status := p'.status, yesVotes := p'.yesVotes, noVotes := p'.noVotes, abstainVotes := p'.abstainVotes)
  }

  /** From s to a later s': records persist; what is finished, voted or granted is never touched again. */
  ghost predicate DaoHistory(s: DaoState, s': DaoState) {
    && s'.params == s.params && s.nextId <= s'.nextId
    && (forall id <- s.proposals ::
          && id in s'.proposals && SameProposal(s.proposals[id], s'.proposals[id])
          && (IsFinished(s.proposals[id]) ==> s'.proposals[id] == s.proposals[id]))
    && (forall k <- s.votes :: k in s'.votes && s'.votes[k] == s.votes[k])
    && (forall k <- s'.votes :: k !in s.votes ==>
          k.proposal in s.proposals ==> s.proposals[k.proposal].status == VotingPeriod)
    && (forall k <- s.lots :: k in s'.lots && s'.lots[k] == s.lots[k])
  }

  lemma DaoHistoryTransitive(s: DaoState, s1: DaoState, s2: DaoState)
    requires DaoHistory(s, s1) && DaoHistory(s1, s2)
    ensures DaoHistory(s, s2)
  {
    forall k | k in s2.votes && k !in s.votes && k.proposal in s.proposals
      ensures s.proposals[k.proposal].status == VotingPeriod
    {
      if k !in s1.votes { assert k.proposal in s1.proposals; }
    }
  }

  /** Hence the votes on a finished proposal stay exactly those that were counted. */
  lemma FrozenTally(s: DaoState, s': DaoState, id: nat)
    requires DaoHistory(s, s') && TalliesStored(s)
    requires id in s.proposals && IsFinished(s.proposals[id])
    ensures id in s'.proposals && s'.proposals[id] == s.proposals[id]
    ensures forall k: VoteKey :: k.proposal == id ==> (k in s'.votes <==> k in s.votes)
    ensures TallyOf(s'.votes, id) == TallyOf(s.votes, id) && TallyStored(s', id)
  {
    assert Bucket(s'.votes, id, OPTION_YES) == Bucket(s.votes, id, OPTION_YES);
    assert Bucket(s'.votes, id, OPTION_NO) == Bucket(s.votes, id, OPTION_NO);
    assert Bucket(s'.votes, id, OPTION_ABSTAIN) == Bucket(s.votes, id, OPTION_ABSTAIN);
    assert Turnout(s'.votes, id) == Turnout(s.votes, id);
  }
}
