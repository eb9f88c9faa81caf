/** Messages, records and stores of x/dao (proto/dnsblockchain/dao/v1/dao.proto, params.proto). */
module DaoTypes {
  import opened GoInts
  import opened Bank
  import opened LegacyDec
  import opened Names
  import opened Wrappers
  import opened Environment

  datatype DaoParams = DaoParams(
    votingPeriodBlocks: uint64,
    proposalSubmissionDeposit: Coins,
    minYesThresholdPercent: Dec,
    votingTokenDenom: Denom,
    votingPowerDecayDurationBlocks: uint64,
    addTldProposalCost: Coins,
    quorumPercent: Dec)

  datatype Content =
    | AddTld(tld: string, description: string)
    | RequestTokens(recipient: string, amount: Coins, activity: string)

  /** A protobuf Any: absent, of an unknown type, or holding one of the registered contents. */
  datatype AnyContent = NilContent | Undecodable | Packed(content: Content)

  datatype Status = Unspecified | Submitted | VotingPeriod | Passed | Rejected | Executed | Failed

  datatype Proposal = Proposal(
    id: nat,
    proposer: string,
    title: string,
    description: string,
    content: Content,
    status: Status,
    submitBlock: nat,
    votingStartBlock: nat,
    votingEndBlock: nat,
    yesVotes: int,
    noVotes: int,
    abstainVotes: int,
    totalVotingPowerAtSnapshot: int)

  /** VoteOption is an open enum: other numbers can be stored too. */
  const OPTION_UNSPECIFIED := 0
  const OPTION_YES := 1
  const OPTION_NO := 2
  const OPTION_ABSTAIN := 3

  datatype Vote = Vote(proposalId: nat, voter: string, option: int, power: int)
  datatype VoteKey = VoteKey(proposal: nat, voter: Account)

  datatype Lot = Lot(voter: string, grantedBy: nat, amount: int, grantHeight: nat)
  datatype LotKey = LotKey(holder: Account, proposal: nat)

  datatype DaoState = DaoState(
    params: DaoParams,
    nextId: nat,
    proposals: map<nat, Proposal>,
    votes: map<VoteKey, Vote>,
    lots: map<LotKey, Lot>)

  datatype DaoError =
    | InvalidAddress
    | InvalidRequest
    | InvalidCoins
    | InvalidContent
    | DuplicateActiveProposal
    | TldReservedByIcann
    | DepositNotPaid(why: BankError)
    | UnexpectedDeposit
    | ProposalNotFound
    | InactiveProposal
    | VotingPeriodEnded
    | AlreadyVoted
    | NoVotingPower

  datatype MsgSubmitProposal = MsgSubmitProposal(
    proposer: string, title: string, description: string, initialDeposit: Coins, content: AnyContent)

  datatype MsgVote = MsgVote(proposalId: nat, voter: string, option: int)

  /** DaoParams.Validate */
  predicate ValidParams(p: DaoParams) {
    && p.votingPeriodBlocks > 0
    && ValidCoins(p.proposalSubmissionDeposit) && ValidCoins(p.addTldProposalCost)
    && 0 <= p.minYesThresholdPercent <= ONE
    && 0 <= p.quorumPercent <= ONE
  }

  const UDNS: Denom := 0

  const DEFAULT_PARAMS :=
    DaoParams(500, map[UDNS := 10_000_000], HALF, UDNS, 100, map[UDNS := 5_000_000], 334 * ONE / 1000)

  /** InitGenesis: parameters that do not validate are replaced. */
  function GenesisParams(p: DaoParams): (q: DaoParams)
    ensures ValidParams(q)
    ensures ValidParams(p) ==> q == p
  {
    if ValidParams(p) then p else DEFAULT_PARAMS
  }

  /** The defaults: 500 blocks, a half, 33.4 percent, 100 blocks of decay, 10 and 5 million udns. */
  lemma Defaults()
    ensures
      var p := DEFAULT_PARAMS;
      && p.votingPeriodBlocks == 500 && p.votingPowerDecayDurationBlocks == 100 && p.votingTokenDenom == UDNS
      && 2 * p.minYesThresholdPercent == ONE && 1000 * p.quorumPercent == 334 * ONE
      && p.proposalSubmissionDeposit == map[UDNS := 10_000_000] && p.addTldProposalCost == map[UDNS := 5_000_000]
  {
  }

  /** ValidateBasic of the two contents. */
  predicate ValidContent(env: Env, c: Content) {
    match c
    case AddTld(tld, _) => 2 <= |tld| <= 63 && MatchesTldRegexp(tld)
    case RequestTokens(recipient, amount, activity) =>
      && env.parseAddress(recipient).Some?
      && ValidCoins(amount) && amount != map[]
      && activity != ""
  }

  /** The error that ValidateBasic returns, if any. */
  function ContentError(env: Env, c: Content): (err: Option<DaoError>)
    ensures err == None <==> ValidContent(env, c)
  {
    match c
    case AddTld(tld, _) =>
      if tld == "" || |tld| < 2 || |tld| > 63 || !MatchesTldRegexp(tld) then Some(InvalidRequest) else None
    case RequestTokens(recipient, amount, activity) =>
      if env.parseAddress(recipient).None? then Some(InvalidAddress)
      else if !ValidCoins(amount) || amount == map[] then Some(InvalidCoins)
      else if activity == "" then Some(InvalidRequest)
      else None
  }

  /** Content without an error: a label of 2 to 63 characters, or coins for a purpose and an address. */
  lemma ContentExactly(env: Env, c: Content)
    ensures
      ContentError(env, c) == None <==>
        match c
        case AddTld(tld, _) =>
          && 2 <= |tld| <= 63 && (forall x <- tld :: IsAlphanumeric(x) || x == '-')
          && tld[0] != '-' && tld[|tld| - 1] != '-'
        case RequestTokens(recipient, amount, activity) =>
          && env.parseAddress(recipient).Some? && |activity| > 0
          && amount.Keys != {} && forall d <- amount :: amount[d] > 0
  {
    if c.AddTld? { RegexpLabels(c.tld); }
  }

  /** Parameters that validate: a period, deposits without empty amounts, and shares between 0 and 1. */
  lemma ParamsExactly(p: DaoParams)
    ensures
      ValidParams(p) <==>
        && p.votingPeriodBlocks >= 1
        && (forall d <- p.proposalSubmissionDeposit :: p.proposalSubmissionDeposit[d] > 0)
        && (forall d <- p.addTldProposalCost :: p.addTldProposalCost[d] > 0)
        && 0 <= p.quorumPercent <= 1_000_000_000_000_000_000
        && 0 <= p.minYesThresholdPercent <= 1_000_000_000_000_000_000
  {
  }

  /** Which error: a bad address before bad coins before a missing text; a bad label is a bad request. */
  lemma ContentErrorKinds(env: Env, c: Content)
    ensures
      match ContentError(env, c)
      case Some(InvalidAddress) => c.RequestTokens? && env.parseAddress(c.recipient).None?
      case Some(InvalidCoins) =>
        && c.RequestTokens? && env.parseAddress(c.recipient).Some?
        && (c.amount == map[] || exists d :: d in c.amount && c.amount[d] <= 0)
      case Some(InvalidRequest) =>
        if c.AddTld? then !(2 <= |c.tld| && MatchesTldRegexp(c.tld))
        else env.parseAddress(c.recipient).Some? && ValidCoins(c.amount) && c.amount != map[] && c.activity == ""
      case Some(_) => false
      case None => true
  {
  }

  /** What is paid at submission and settled at the end. */
  function Deposit(p: DaoParams, c: Content): Coins {
    if c.AddTld? then p.addTldProposalCost else p.proposalSubmissionDeposit
  }

  predicate IsFinished(p: Proposal) {
    p.status != VotingPeriod
  }
}
