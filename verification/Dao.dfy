/**
 The steps of x/dao as functions on the state of the chain: submitting, voting,
 and the settlement of due proposals at the end of a block.
 */
module Dao {
  import opened Wrappers
  import opened GoInts
  import opened MapTotals
  import opened Bank
  import opened Environment
  import opened Names
  import opened Registry
  import opened Walks
  import opened DaoTypes
  import opened DaoDecision
  import opened VotingPower

  /** Block height and time with the stores of the three modules. */
  datatype World = World(height: nat, time: nat, dao: DaoState, bank: BankState, registry: RegistryState)

  // ---------- votes ----------

  /** The powers of the votes on one proposal for one option. */
  function Bucket(votes: map<VoteKey, Vote>, id: nat, option: int): map<VoteKey, int> {
    map k | k in votes && k.proposal == id && votes[k].option == option :: votes[k].power
  }

  /** The powers that count towards the quorum: every option but the unspecified one. */
  function Turnout(votes: map<VoteKey, Vote>, id: nat): map<VoteKey, int> {
    map k | k in votes && k.proposal == id && votes[k].option != OPTION_UNSPECIFIED :: votes[k].power
  }

  datatype Tally = Tally(yes: int, no: int, abstain: int, voted: int)

  ghost function TallyOf(votes: map<VoteKey, Vote>, id: nat): Tally {
    Tally(Total(Bucket(votes, id, OPTION_YES)), Total(Bucket(votes, id, OPTION_NO)),
          Total(Bucket(votes, id, OPTION_ABSTAIN)), Total(Turnout(votes, id)))
  }

  /** What one vote adds. */
  function AddVote(t: Tally, v: Vote): Tally {
    Tally(
      t.yes + if v.option == OPTION_YES then v.power else 0,
      t.no + if v.option == OPTION_NO then v.power else 0,
      t.abstain + if v.option == OPTION_ABSTAIN then v.power else 0,
      t.voted + if v.option != OPTION_UNSPECIFIED then v.power else 0)
  }

  lemma TallyWithVote(votes: map<VoteKey, Vote>, id: nat, k: VoteKey, v: Vote)
    requires k !in votes && k.proposal == id
    ensures TallyOf(votes[k := v], id) == AddVote(TallyOf(votes, id), v)
  {
    BucketWithVote(votes, id, k, v, OPTION_YES);
    BucketWithVote(votes, id, k, v, OPTION_NO);
    BucketWithVote(votes, id, k, v, OPTION_ABSTAIN);
    var t, t' := Turnout(votes, id), Turnout(votes[k := v], id);
    if v.option == OPTION_UNSPECIFIED {
      assert t' == t;
    } else {
      assert t' == t[k := v.power];
      TotalInsert(t, k, v.power);
    }
  }

  lemma BucketWithVote(votes: map<VoteKey, Vote>, id: nat, k: VoteKey, v: Vote, option: int)
    requires k !in votes && k.proposal == id
    ensures
      Total(Bucket(votes[k := v], id, option)) ==
        Total(Bucket(votes, id, option)) + if v.option == option then v.power else 0
  {
    var t, t' := Bucket(votes, id, option), Bucket(votes[k := v], id, option);
    if v.option == option {
      assert t' == t[k := v.power];
      TotalInsert(t, k, v.power);
    } else {
      assert t' == t;
    }
  }

  /** A vote on one proposal does not touch the tally of another. */
  lemma TallyOfOther(votes: map<VoteKey, Vote>, id: nat, k: VoteKey, v: Vote)
    requires k.proposal != id
    ensures TallyOf(votes[k := v], id) == TallyOf(votes, id)
  {
    assert Bucket(votes[k := v], id, OPTION_YES) == Bucket(votes, id, OPTION_YES);
    assert Bucket(votes[k := v], id, OPTION_NO) == Bucket(votes, id, OPTION_NO);
    assert Bucket(votes[k := v], id, OPTION_ABSTAIN) == Bucket(votes, id, OPTION_ABSTAIN);
    assert Turnout(votes[k := v], id) == Turnout(votes, id);
  }

  // ---------- voting power ----------

  function LotPowers(s: DaoState, holder: Account, height: nat): map<LotKey, int>
  {
    map k | k in s.lots && k.holder == holder ::
      LotPower(s.lots[k], s.params.votingPowerDecayDurationBlocks, height)
  }

  /** The balance until the first grant; from then on the sum over the voter's lots. */
  ghost function VoterPower(s: DaoState, b: BankState, voter: Account, height: nat): int
  {
    if s.lots == map[] then Balance(b, voter, s.params.votingTokenDenom)
    else Total(LotPowers(s, voter, height))
  }

  // ---------- messages ----------

  ghost predicate IsActive(s: DaoState, id: nat) {
    id in s.proposals && s.proposals[id].status == VotingPeriod
  }

  ghost predicate HasActiveTwin(s: DaoState, c: Content) {
    exists id :: IsActive(s, id) && s.proposals[id].content == c
  }

  /** The TLD checks at submission. */
  function CheckTld(r: RegistryState, c: Content): Option<DaoError> {
    if !c.AddTld? then None
    else if IsReservedTld(NormalizeName(c.tld)) then Some(TldReservedByIcann)
    else if IsPermitted(r, NormalizeName(c.tld)) then Some(InvalidContent)
    else None
  }

  function PayDeposit(b: BankState, proposer: Account, deposit: Coins, initialDeposit: Coins)
    : Result<BankState, DaoError>
  {
    if !IsZero(deposit) then
      match Send(b, proposer, DAO, deposit)
      case Ok(b') => Ok(b')
      case Err(e) => Err(DepositNotPaid(e))
    else if !IsZero(initialDeposit) then Err(UnexpectedDeposit)
    else Ok(b)
  }

  function NewProposal(w: World, m: MsgSubmitProposal, c: Content): Proposal {
    Proposal(w.dao.nextId, m.proposer, m.title, m.description, c, VotingPeriod,
             w.height, w.height, ToUint64(w.height + w.dao.params.votingPeriodBlocks),
             0, 0, 0, Supply(w.bank, w.dao.params.votingTokenDenom))
  }

  ghost function Submit(env: Env, w: World, m: MsgSubmitProposal): Result<World, DaoError> {
    var proposer := env.parseAddress(m.proposer);
    if proposer.None? then Err(DaoError.InvalidAddress)
    else if !m.content.Packed? then Err(InvalidContent)
    else
      var c := m.content.content;
      if ContentError(env, c).Some? then Err(ContentError(env, c).value)
      else if HasActiveTwin(w.dao, c) then Err(DuplicateActiveProposal)
      else if CheckTld(w.registry, c).Some? then Err(CheckTld(w.registry, c).value)
      else
        var b :- PayDeposit(w.bank, proposer.value, Deposit(w.dao.params, c), m.initialDeposit);
        Ok(w.(bank := b,
              dao := w.dao.(
                nextId := NextId(w.dao.nextId),
                proposals := w.dao.proposals[w.dao.nextId := NewProposal(w.(bank := b), m, c)])))
  }

  ghost function CastVote(env: Env, w: World, m: MsgVote): Result<World, DaoError>
  {
    var s, voter := w.dao, env.parseAddress(m.voter);
    if voter.None? then Err(DaoError.InvalidAddress)
    else if m.proposalId !in s.proposals then Err(ProposalNotFound)
    else
      var p, key := s.proposals[m.proposalId], VoteKey(m.proposalId, voter.value);
      if p.status != VotingPeriod then Err(InactiveProposal)
      else if w.height > p.votingEndBlock then Err(VotingPeriodEnded)
      else if key in s.votes && s.votes[key].voter != "" then Err(AlreadyVoted)
      else
        var power := VoterPower(s, w.bank, voter.value, w.height);
        if power == 0 then Err(NoVotingPower)
        else Ok(w.(dao := s.(votes := s.votes[key := Vote(m.proposalId, m.voter, m.option, power)])))
  }

  // ---------- execution ----------

  /** The lot that a grant in the voting token creates. */
  function GrantLot(s: DaoState, holder: Account, id: nat, c: Content, height: nat): map<LotKey, Lot>
    requires c.RequestTokens?
  {
    var d := s.params.votingTokenDenom;
    if d in c.amount && c.amount[d] > 0
    then s.lots[LotKey(holder, id) := Lot(c.recipient, id, c.amount[d], height)]
    else s.lots
  }

  /** Minted to the module, then sent; if that fails, burned again. */
  function Grant(b: BankState, to: Account, amount: Coins): (BankState, bool) {
    var b1 := MintTo(b, DAO, amount);
    match SendToAccount(b1, DAO, to, amount)
    case Ok(b2) => (b2, true)
    case Err(_) =>
      match BurnFrom(b1, DAO, amount)
      case Ok(b2) => (b2, false)
      case Err(_) => (b1, false)
  }

  /** executeProposal, with whether it succeeded; a failure keeps what was done before it. */
  function Execute(env: Env, w: World, id: nat, c: Content): (World, bool) {
    match c
    case AddTld(tld, _) =>
      (match AddPermittedTld(w.registry, tld)
       case Ok(r) => (w.(registry := r), true)
       case Err(_) => (w, false))
    case RequestTokens(recipient, amount, _) =>
      match env.parseAddress(recipient)
      case None => (w, false)
      case Some(to) =>
        var (b, done) := Grant(w.bank, to, amount);
        (w.(bank := b, dao := if done then w.dao.(lots := GrantLot(w.dao, to, id, c, w.height)) else w.dao),
         done)
  }

  /** The deposit goes back to the proposer of an executed proposal and is burned otherwise. */
  function SettleDeposit(env: Env, b: BankState, proposer: string, status: Status, deposit: Coins): BankState {
    if IsZero(deposit) then b
    else if status == Executed then
      match env.parseAddress(proposer)
      case None => b
      case Some(a) =>
        (match SendToAccount(b, DAO, a, deposit)
         case Ok(b') => b'
         case Err(_) => b)
    else
      match BurnFrom(b, DAO, deposit)
      case Ok(b') => b'
      case Err(_) => b
  }

  ghost predicate Wins(s: DaoState, id: nat)
    requires id in s.proposals
  {
    var t := TallyOf(s.votes, id);
    Accepts(s.params, s.proposals[id].totalVotingPowerAtSnapshot, t.yes, t.no, t.voted)
  }

  /** Tally, decision, execution and deposit of one due proposal. */
  ghost function Settle(env: Env, w: World, id: nat): World
    requires id in w.dao.proposals
  {
    var p, t := w.dao.proposals[id], TallyOf(w.dao.votes, id);
    var (w1, done) := if Wins(w.dao, id) then Execute(env, w, id, p.content) else (w, false);
    var status := if !Wins(w.dao, id) then Rejected else if done then Executed else Failed;
    var settled := p.(yesVotes := t.yes, noVotes := t.no, abstainVotes := t.abstain, status := status);
    w1.(bank := SettleDeposit(env, w1.bank, p.proposer, status, Deposit(w.dao.params, p.content)),
        dao := w1.dao.(proposals := w1.dao.proposals[id := settled]))
  }

  ghost predicate IsDue(w: World, id: nat) {
    IsActive(w.dao, id) && w.height > w.dao.proposals[id].votingEndBlock
  }

  /** The due proposals, by ascending id. */
  ghost function DueIds(w: World, ids: seq<nat>): seq<nat> {
    if ids == [] then []
    else DueIds(w, ids[..|ids| - 1]) + if IsDue(w, ids[|ids| - 1]) then [ids[|ids| - 1]] else []
  }

  ghost function SettleAll(env: Env, w: World, ids: seq<nat>): (w': World)
    requires forall i :: 0 <= i < |ids| ==> ids[i] in w.dao.proposals
    ensures w'.dao.proposals.Keys == w.dao.proposals.Keys
  {
    if ids == [] then w
    else Settle(env, SettleAll(env, w, ids[..|ids| - 1]), ids[|ids| - 1])
  }

  lemma {:induction false} DueIdsMembers(w: World, ids: seq<nat>)
    ensures forall id :: id in DueIds(w, ids) <==> id in ids && IsDue(w, id)
  {
    hide IsDue;
    if ids != [] {
      assert ids == ids[..|ids| - 1] + [ids[|ids| - 1]];
      DueIdsMembers(w, ids[..|ids| - 1]);
    }
  }

  lemma {:induction false} DueIdsOrder(w: World, ids: seq<nat>)
    requires IsAscending(ids)
    ensures IsAscending(DueIds(w, ids))
  {
    hide IsDue;
    if ids != [] {
      var front, last := ids[..|ids| - 1], ids[|ids| - 1];
      DueIdsOrder(w, front);
      DueIdsMembers(w, front);
      var due := DueIds(w, front);
      forall i | 0 <= i < |due| ensures due[i] < last {
        assert due[i] in due && due[i] in front;
      }
    }
  }

  /** The proposals that the end of a block settles, in the order of the walk. */
  ghost function Due(w: World): seq<nat> {
    DueIds(w, Ascending(w.dao.proposals.Keys))
  }

  lemma DueLaw(w: World)
    ensures forall id :: id in Due(w) <==> id in w.dao.proposals && IsDue(w, id)
    ensures forall i :: 0 <= i < |Due(w)| ==> Due(w)[i] in w.dao.proposals && IsDue(w, Due(w)[i])
    ensures IsAscending(Due(w))
  {
    hide IsDue;
    var ids := Ascending(w.dao.proposals.Keys);
    AscendingLaw(w.dao.proposals.Keys);
    DueIdsMembers(w, ids);
    DueIdsOrder(w, ids);
    assert forall i :: 0 <= i < |Due(w)| ==> Due(w)[i] in Due(w);
  }

  /** EndBlocker. */
  ghost function EndBlocker(env: Env, w: World): World {
    DueLaw(w);
    SettleAll(env, w, Due(w))
  }
}
