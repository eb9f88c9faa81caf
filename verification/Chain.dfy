/**
 Runs of the whole chain: transactions of both modules, bank transfers by users,
 and the ends of blocks, in any order. The main results hold after every run.
 */
module Chain {
  import opened Wrappers
  import opened GoInts
  import opened MapTotals
  import opened Bank
  import opened Environment
  import opened Names
  import opened Registry
  import opened RegistryGenesis
  import opened DaoTypes
  import opened Dao
  import opened DaoInvariant
  import opened DaoMessages
  import opened DaoSettlement
  import opened DaoOutcome

  datatype Step =
    | SubmitProposal(submission: MsgSubmitProposal)
    | CastAVote(vote: MsgVote)
    | BankSend(from: Account, to: Account, amount: Coins)
    | RegistryTx(msg: RegistryMsg)
    | EndBlock(nextTime: nat)

  /** A transaction that fails leaves no trace; a block always ends. */
  ghost function Next(env: Env, w: World, step: Step): World
  {
    match step
    case SubmitProposal(m) =>
      (match Submit(env, w, m)
       case Ok(w') => w'
       case Err(_) => w)
    case CastAVote(m) =>
      (match CastVote(env, w, m)
       case Ok(w') => w'
       case Err(_) => w)
    case BankSend(from, to, amount) =>
      if !ValidCoins(amount) then w
      else
        (match SendToAccount(w.bank, from, to, amount)
         case Ok(b) => w.(bank := b)
         case Err(_) => w)
    case RegistryTx(m) =>
      (match Handle(env, w.time, w.registry, w.bank, m)
       case Ok((r, b)) => w.(registry := r, bank := b)
       case Err(_) => w)
    case EndBlock(nextTime) =>
      EndBlocker(env, w).(height := w.height + 1, time := nextTime)
  }

  ghost predicate SignedByUser(env: Env, signer: string) {
    env.parseAddress(signer).Some? ==> env.parseAddress(signer).value.User?
  }

  /** Module accounts sign nothing, and no uint64 of the chain is about to overflow. */
  ghost predicate Admissible(env: Env, w: World, step: Step) {
    match step
    case SubmitProposal(m) =>
      && SignedByUser(env, m.proposer) && DaoMessages.HasRoom(w.dao)
      && w.height + w.dao.params.votingPeriodBlocks < TWO_64
    case CastAVote(m) => SignedByUser(env, m.voter)
    case BankSend(from, _, _) => from.User?
    case RegistryTx(m) => (m.CreateDomain? ==> SignedByUser(env, m.creator)) && Registry.HasRoom(w.registry)
    case EndBlock(_) => w.height + 1 < TWO_64
  }

  ghost predicate AdmissibleRun(env: Env, w: World, steps: seq<Step>)
    decreases |steps|
  {
    steps == [] || (Admissible(env, w, steps[0]) && AdmissibleRun(env, Next(env, w, steps[0]), steps[1..]))
  }

  ghost function Run(env: Env, w: World, steps: seq<Step>): World
    decreases |steps|
  {
    if steps == [] then w else Run(env, Next(env, w, steps[0]), steps[1..])
  }

  lemma NoSteps(env: Env, w: World)
    ensures Run(env, w, []) == w && AdmissibleRun(env, w, [])
  {
  }

  lemma FirstStep(env: Env, w: World, step: Step, rest: seq<Step>)
    ensures Run(env, w, [step] + rest) == Run(env, Next(env, w, step), rest)
    ensures
      AdmissibleRun(env, w, [step] + rest) <==>
        Admissible(env, w, step) && AdmissibleRun(env, Next(env, w, step), rest)
  {
    hide Next, Admissible;
    assert ([step] + rest)[1..] == rest;
  }

  /** The bech32 codec refuses the empty string. */
  ghost predicate ValidEnv(env: Env) {
    env.parseAddress("") == None
  }

  // ---------- what a step adds to the accounts ----------

  /** The registration fee that the step burns. */
  ghost function StepFee(env: Env, w: World, step: Step, d: Denom): int {
    if step.RegistryTx? && step.msg.CreateDomain? && Handle(env, w.time, w.registry, w.bank, step.msg).Ok?
    then AmountOf(w.registry.fee, d) else 0
  }

  /** What the step sends to the DAO's account outside any deposit. */
  ghost function StepGift(w: World, step: Step, d: Denom): int {
    if step.BankSend? && step.to == DAO && ValidCoins(step.amount)
       && SendToAccount(w.bank, step.from, step.to, step.amount).Ok?
    then AmountOf(step.amount, d) else 0
  }

  ghost function Fees(env: Env, w: World, steps: seq<Step>, d: Denom): int
    decreases |steps|
  {
    if steps == [] then 0
    else StepFee(env, w, steps[0], d) + Fees(env, Next(env, w, steps[0]), steps[1..], d)
  }

  ghost function Gifts(env: Env, w: World, steps: seq<Step>, d: Denom): int
    decreases |steps|
  {
    if steps == [] then 0
    else StepGift(w, steps[0], d) + Gifts(env, Next(env, w, steps[0]), steps[1..], d)
  }

  // ---------- one step ----------

  /** Every proposal in its voting period is still on time. */
  ghost predicate NoneOverdue(w: World) {
    forall id :: IsActive(w.dao, id) ==> w.height <= w.dao.proposals[id].votingEndBlock + 1
  }

  /** Domains registered from id `first` on have names of the form label.tld under a permitted TLD. */
  ghost predicate NamesRegistered(r: RegistryState, first: nat) {
    forall id <- r.domains :: id >= first ==> RegisteredName(r.tlds, r.domains[id].name)
  }

  ghost predicate Good(env: Env, w: World) {
    WorldOk(env, w) && WonTldsPermitted(w) && NoneOverdue(w)
  }

  /** What every step keeps, and what it adds to the accounts. */
  ghost predicate StepOk(env: Env, w: World, step: Step, w': World) {
    && Good(env, w')
    && DaoHistory(w.dao, w'.dao) && RegistryHistory(w.registry, w'.registry) && w.height <= w'.height
    && (NoneReserved(w.registry) ==> NoneReserved(w'.registry))
    && (forall first: nat :: first <= w.registry.nextId && NamesRegistered(w.registry, first) ==>
          NamesRegistered(w'.registry, first))
    && (forall d ::
          && ForeignSupply(w', d) == ForeignSupply(w, d) - StepFee(env, w, step, d)
          && Surplus(env, w', d) == Surplus(env, w, d) + StepGift(w, step, d))
  }

  lemma IdleStep(env: Env, w: World, step: Step)
    requires Good(env, w)
    requires forall d :: StepFee(env, w, step, d) == 0 && StepGift(w, step, d) == 0
    ensures StepOk(env, w, step, w)
  {
    hide WorldOk, WonTldsPermitted;
    NoHistory(w.dao, w.registry);
  }

  lemma SubmitStep(env: Env, w: World, step: Step)
    requires Good(env, w) && step.SubmitProposal? && Admissible(env, w, step)
    ensures StepOk(env, w, step, Next(env, w, step))
  {
    hide WorldOk, ContentError, ValidContent, CheckTld, PayDeposit, HasActiveTwin, DaoHistory, NamesRegistered;
    hide ForeignSupply, Surplus, ToLower;
    if Submit(env, w, step.submission).Err? {
      IdleStep(env, w, step);
    } else {
      SubmitKeepsOk(env, w, step.submission);
      NoHistory(w.dao, w.registry);
    }
  }

  lemma VoteStep(env: Env, w: World, step: Step)
    requires Good(env, w) && ValidEnv(env) && step.CastAVote?
    ensures StepOk(env, w, step, Next(env, w, step))
  {
    hide WorldOk, VoterPower, DaoHistory, NamesRegistered, ForeignSupply, Surplus, ToLower;
    if CastVote(env, w, step.vote).Err? {
      IdleStep(env, w, step);
    } else {
      CastVoteKeepsOk(env, w, step.vote);
      NoHistory(w.dao, w.registry);
    }
  }

  lemma SendStep(env: Env, w: World, step: Step)
    requires Good(env, w) && step.BankSend? && Admissible(env, w, step)
    ensures StepOk(env, w, step, Next(env, w, step))
  {
    hide ProposalsOk, ActiveDistinct, VotesOk, TalliesStored, LotsOk, RegistryOk, Sound, Escrow, Send;
    hide WonTldsPermitted, NoneOverdue, NamesRegistered, DaoHistory, RegistryHistory, Granted, Burned, GrantedToDao;
    var w' := Next(env, w, step);
    NoHistory(w.dao, w.registry);
    if !ValidCoins(step.amount) || SendToAccount(w.bank, step.from, step.to, step.amount).Err? {
      IdleStep(env, w, step);
    } else {
      SendKeepsSound(w.bank, step.from, step.to, step.amount);
      BankOnly(w, w');
      forall d
        ensures Balance(w'.bank, DAO, d) >= Escrow(w'.dao, d)
        ensures ForeignSupply(w', d) == ForeignSupply(w, d) - StepFee(env, w, step, d)
        ensures Surplus(env, w', d) == Surplus(env, w, d) + StepGift(w, step, d)
      {
        SendBalance(w.bank, step.from, step.to, step.amount, DAO, d);
        assert Balance(w.bank, DAO, d) >= Escrow(w.dao, d);
      }
    }
  }

  lemma BankOnly(w: World, w': World)
    requires w' == w.(bank := w'.bank)
    ensures WonTldsPermitted(w) ==> WonTldsPermitted(w')
    ensures NoneOverdue(w) ==> NoneOverdue(w')
  {
  }

  lemma RegistryStep(env: Env, w: World, step: Step)
    requires Good(env, w) && step.RegistryTx? && Admissible(env, w, step)
    ensures StepOk(env, w, step, Next(env, w, step))
  {
    hide ProposalsOk, ActiveDistinct, VotesOk, TalliesStored, LotsOk, RegistryOk, Sound, Escrow, Handle;
    hide NamesRegistered, DaoHistory, Granted, Burned, GrantedToDao, IsReservedTld, ToLower;
    var w', m := Next(env, w, step), step.msg;
    NoHistory(w.dao, w.registry);
    if Handle(env, w.time, w.registry, w.bank, m).Err? {
      IdleStep(env, w, step);
    } else {
      HandleKeepsOk(env, w.time, w.registry, w.bank, m);
      FeeIsValid(w.registry);
      HandleBank(env, w.time, w.registry, w.bank, m);
      HandleNames(env, w.time, w.registry, w.bank, m);
      forall d
        ensures Balance(w'.bank, DAO, d) >= Escrow(w'.dao, d)
        ensures ForeignSupply(w', d) == ForeignSupply(w, d) - StepFee(env, w, step, d)
        ensures Surplus(env, w', d) == Surplus(env, w, d) + StepGift(w, step, d)
      {
        assert Balance(w'.bank, DAO, d) == Balance(w.bank, DAO, d);
        assert Balance(w.bank, DAO, d) >= Escrow(w.dao, d);
      }
    }
  }

  lemma FeeIsValid(r: RegistryState)
    requires RegistryOk(r)
    ensures ValidCoins(r.fee)
  {
  }

  /** A registry transaction moves no coins but the fee, which a user pays and which is burned. */
  lemma HandleBank(env: Env, now: nat, r: RegistryState, b: BankState, m: RegistryMsg)
    requires Handle(env, now, r, b, m).Ok? && Sound(b) && ValidCoins(r.fee)
    requires m.CreateDomain? ==> SignedByUser(env, m.creator)
    ensures
      var b' := Handle(env, now, r, b, m).value.1;
      && Sound(b')
      && forall d ::
           && Balance(b', DAO, d) == Balance(b, DAO, d)
           && Supply(b', d) == Supply(b, d) - if m.CreateDomain? then AmountOf(r.fee, d) else 0
  {
    hide Sound, ChargeFee, NormalizeName, SplitDots, Update, Delete, Heartbeat, Transfer, SetParams;
    if m.CreateDomain? {
      var payer := env.parseAddress(m.creator).value;
      ChargeFeeKeepsSound(b, payer, r.fee);
      forall d
        ensures Balance(ChargeFee(b, payer, r.fee).value, DAO, d) == Balance(b, DAO, d)
        ensures Supply(ChargeFee(b, payer, r.fee).value, d) == Supply(b, d) - AmountOf(r.fee, d)
      {
        ChargeFeeEffect(b, payer, r.fee, DAO, d);
      }
    }
  }

  lemma HandleNames(env: Env, now: nat, r: RegistryState, b: BankState, m: RegistryMsg)
    requires Handle(env, now, r, b, m).Ok? && RegistryOk(r) && Registry.HasRoom(r)
    ensures
      var r' := Handle(env, now, r, b, m).value.0;
      && r'.tlds == r.tlds
      && forall first: nat :: first <= r.nextId && NamesRegistered(r, first) ==> NamesRegistered(r', first)
  {
    hide RegisteredName, RegistryOk, ChargeFee, NormalizeName, SplitDots, ValidRecords;
    var r' := Handle(env, now, r, b, m).value.0;
    HandleKeepsOk(env, now, r, b, m);
    if m.CreateDomain? { CreatedName(env, now, r, b, m); }
    forall first: nat, id: nat | first <= r.nextId && NamesRegistered(r, first) && id in r'.domains && id >= first
      ensures RegisteredName(r'.tlds, r'.domains[id].name)
    {
      if id in r.domains { assert RegisteredName(r.tlds, r.domains[id].name); }
    }
  }

  lemma EndBlockStep(env: Env, w: World, step: Step)
    requires Good(env, w) && step.EndBlock?
    ensures StepOk(env, w, step, Next(env, w, step))
  {
    hide ProposalsOk, ActiveDistinct, VotesOk, TalliesStored, LotsOk, RegistryOk, Sound, EndBlocker;
    hide WonTldsPermitted, NoneReserved, RegisteredName, DaoHistory, Escrow;
    var w1, w' := EndBlocker(env, w), Next(env, w, step);
    EndBlockerKeepsOk(env, w);
    LaterLots(env, w1.dao, w1.height);
    assert WonTldsPermitted(w') by { NextHeight(w1, w'); }
    forall id | IsActive(w'.dao, id) ensures w'.height <= w'.dao.proposals[id].votingEndBlock + 1 {
      assert !IsDue(w1, id);
    }
    forall first: nat, id: nat | NamesRegistered(w.registry, first) && id in w'.registry.domains && id >= first
      ensures RegisteredName(w'.registry.tlds, w'.registry.domains[id].name)
    {
      RegisteredNameGrows(w.registry.tlds, w'.registry.tlds, w.registry.domains[id].name);
    }
  }

  lemma NextHeight(w: World, w': World)
    requires w' == w.(height := w'.height, time := w'.time) && WonTldsPermitted(w)
    ensures WonTldsPermitted(w')
  {
  }

  lemma LaterLots(env: Env, s: DaoState, height: nat)
    requires LotsOk(env, s, height)
    ensures LotsOk(env, s, height + 1)
  {
    forall k | k in s.lots ensures LotOk(env, s, k, height + 1) { assert LotOk(env, s, k, height); }
  }

  lemma NextOk(env: Env, w: World, step: Step)
    requires Good(env, w) && ValidEnv(env) && Admissible(env, w, step)
    ensures StepOk(env, w, step, Next(env, w, step))
  {
    hide Good, Admissible, StepOk, Next;
    match step
    case SubmitProposal(_) => SubmitStep(env, w, step);
    case CastAVote(_) => VoteStep(env, w, step);
    case BankSend(_, _, _) => SendStep(env, w, step);
    case RegistryTx(_) => RegistryStep(env, w, step);
    case EndBlock(_) => EndBlockStep(env, w, step);
  }

  // ---------- every run ----------

  /** x/dao starts with parameters only, over a sound bank and a registry with a correct index. */
  ghost predicate Initial(env: Env, w: World) {
    && ValidParams(w.dao.params) && w.dao == DaoState(w.dao.params, 0, map[], map[], map[])
    && Sound(w.bank) && RegistryOk(w.registry)
  }

  lemma InitialIsGood(env: Env, w: World)
    requires Initial(env, w)
    ensures Good(env, w)
    ensures forall d :: Escrow(w.dao, d) == 0 && Granted(w.dao, d) == 0 && Burned(w.dao, d) == 0
    ensures forall d :: GrantedToDao(env, w.dao, d) == 0
  {
    hide RegistryOk;
    forall d
      ensures Escrow(w.dao, d) == 0 && Granted(w.dao, d) == 0 && Burned(w.dao, d) == 0
      ensures GrantedToDao(env, w.dao, d) == 0 && Balance(w.bank, DAO, d) >= 0
    {
      assert EscrowEntries(w.dao, d) == map[] && GrantEntries(w.dao, d) == map[];
      assert BurnedEntries(w.dao, d) == map[] && GrantEntriesTo(env, w.dao, DAO, d) == map[];
    }
  }

  /** Every reachable state is good, and nothing written before is taken back. */
  lemma {:induction false} RunKeepsOk(env: Env, w: World, steps: seq<Step>)
    requires Good(env, w) && ValidEnv(env) && AdmissibleRun(env, w, steps)
    ensures
      var w' := Run(env, w, steps);
      && Good(env, w') && w.height <= w'.height
      && DaoHistory(w.dao, w'.dao) && RegistryHistory(w.registry, w'.registry)
      && (NoneReserved(w.registry) ==> NoneReserved(w'.registry))
    decreases |steps|
  {
    hide Good, Admissible, Next, DaoHistory, RegistryHistory, NoneReserved, NamesRegistered, ForeignSupply, Surplus;
    if steps == [] {
      NoHistory(w.dao, w.registry);
    } else {
      var w1 := Next(env, w, steps[0]);
      NextOk(env, w, steps[0]);
      RunKeepsOk(env, w1, steps[1..]);
      var w' := Run(env, w1, steps[1..]);
      DaoHistoryTransitive(w.dao, w1.dao, w'.dao);
      RegistryHistoryTransitive(w.registry, w1.registry, w'.registry);
    }
  }

  lemma {:induction false} RunAccounts(env: Env, w: World, steps: seq<Step>, d: Denom)
    requires Good(env, w) && ValidEnv(env) && AdmissibleRun(env, w, steps)
    ensures
      var w' := Run(env, w, steps);
      && ForeignSupply(w', d) == ForeignSupply(w, d) - Fees(env, w, steps, d)
      && Surplus(env, w', d) == Surplus(env, w, d) + Gifts(env, w, steps, d)
    decreases |steps|
  {
    hide Good, Admissible, Next, StepFee, StepGift, DaoHistory, RegistryHistory, NoneReserved, NamesRegistered;
    hide ForeignSupply, Surplus;
    if steps != [] {
      NextOk(env, w, steps[0]);
      RunAccounts(env, Next(env, w, steps[0]), steps[1..], d);
    }
  }

  /**
   The books of a chain, from its start: the supply is the initial supply plus
   the executed grants, less the deposits of rejected and failed proposals and
   the registration fees; and the DAO's account holds, beyond what it started
   with, exactly the deposits of the proposals in their voting period, the
   grants to itself and what users sent it. So each deposit is settled once.
   */
  lemma Books(env: Env, w: World, steps: seq<Step>, d: Denom)
    requires Initial(env, w) && ValidEnv(env) && AdmissibleRun(env, w, steps)
    ensures
      var w' := Run(env, w, steps);
      && Supply(w'.bank, d) ==
           Supply(w.bank, d) + Granted(w'.dao, d) - Burned(w'.dao, d) - Fees(env, w, steps, d)
      && Balance(w'.bank, DAO, d) ==
           Balance(w.bank, DAO, d) + Escrow(w'.dao, d) + GrantedToDao(env, w'.dao, d) + Gifts(env, w, steps, d)
      && Balance(w'.bank, DAO, d) >= Escrow(w'.dao, d)
      && Supply(w'.bank, d) == Total(Column(w'.bank, d))
  {
    hide Run, AdmissibleRun, Initial, Fees, Gifts;
    InitialIsGood(env, w);
    RunAccounts(env, w, steps, d);
    RunKeepsOk(env, w, steps);
  }

  lemma {:induction false} RunNames(env: Env, w: World, steps: seq<Step>, first: nat)
    requires Good(env, w) && ValidEnv(env) && AdmissibleRun(env, w, steps)
    requires first <= w.registry.nextId && NamesRegistered(w.registry, first)
    ensures NamesRegistered(Run(env, w, steps).registry, first)
    decreases |steps|
  {
    hide Good, Admissible, Next, NamesRegistered, NoneReserved, DaoHistory, ForeignSupply, Surplus;
    if steps != [] {
      NextOk(env, w, steps[0]);
      RunNames(env, Next(env, w, steps[0]), steps[1..], first);
    }
  }

  /**
   From any genesis, every domain registered in the run has a lower-case name of
   the form label.tld whose TLD, without surrounding spaces, is permitted.
   */
  lemma RegisteredNames(env: Env, w: World, steps: seq<Step>)
    requires Initial(env, w) && ValidEnv(env) && AdmissibleRun(env, w, steps)
    ensures NamesRegistered(Run(env, w, steps).registry, w.registry.nextId)
  {
    hide RegisteredName;
    InitialIsGood(env, w);
    assert NamesRegistered(w.registry, w.registry.nextId);
    RunNames(env, w, steps, w.registry.nextId);
  }

  /** A finished proposal keeps its record and its counted votes through every later run. */
  lemma Finality(env: Env, w: World, steps: seq<Step>, id: nat)
    requires Good(env, w) && ValidEnv(env) && AdmissibleRun(env, w, steps)
    requires id in w.dao.proposals && IsFinished(w.dao.proposals[id])
    ensures
      var s := Run(env, w, steps).dao;
      && id in s.proposals && s.proposals[id] == w.dao.proposals[id]
      && TallyOf(s.votes, id) == TallyOf(w.dao.votes, id) && TallyStored(s, id)
  {
    hide Run, AdmissibleRun, TallyOf;
    RunKeepsOk(env, w, steps);
    FrozenTally(w.dao, Run(env, w, steps).dao, id);
  }

  /**
   The life of an AddTld proposal: its label is not permitted when it is
   submitted; whatever happens until its voting period is over, if it wins then
   it fails exactly when the label has become permitted since, at the latest by
   an earlier proposal of the same block. Either way the label is permitted from
   that block on, through every later run.
   */
  lemma AddTldFate(env: Env, w: World, m: MsgSubmitProposal, steps: seq<Step>, nextTime: nat, more: seq<Step>)
    requires Good(env, w) && ValidEnv(env) && Admissible(env, w, SubmitProposal(m))
    requires Submit(env, w, m).Ok? && m.content.content.AddTld?
    requires AdmissibleRun(env, Next(env, w, SubmitProposal(m)), steps)
    ensures
      var w1, id := Run(env, Next(env, w, SubmitProposal(m)), steps), w.dao.nextId;
      var w2, tld := Next(env, w1, EndBlock(nextTime)), ToLower(m.content.content.tld);
      && tld !in w.registry.tlds
      && id in w1.dao.proposals && w1.dao.proposals[id].content == m.content.content
      && (IsDue(w1, id) && Wins(w1.dao, id) ==>
            && id in w2.dao.proposals
            && w2.dao.proposals[id].status ==
                 (if tld in w1.registry.tlds || TakenEarlier(w1, DueSet(w1), id, tld) then Failed else Executed)
            && tld in w2.registry.tlds
            && (AdmissibleRun(env, w2, more) ==> tld in Run(env, w2, more).registry.tlds))
  {
    hide Run, AdmissibleRun, Good, Next, Submit, Admissible, ToLower, Wins, IsDue, TakenEarlier;
    var w0, id := Next(env, w, SubmitProposal(m)), w.dao.nextId;
    var w1 := Run(env, w0, steps);
    SubmittedTldIsNew(env, w, m);
    SubmittedStays(env, w, m, steps);
    if IsDue(w1, id) && Wins(w1.dao, id) {
      WonTldStatus(env, w1, id, nextTime);
      WonTldStays(env, w1, id, nextTime, more);
    }
  }

  /** A submitted content stays under its id through every run. */
  lemma SubmittedStays(env: Env, w: World, m: MsgSubmitProposal, steps: seq<Step>)
    requires Good(env, w) && ValidEnv(env) && Admissible(env, w, SubmitProposal(m)) && Submit(env, w, m).Ok?
    requires AdmissibleRun(env, Next(env, w, SubmitProposal(m)), steps)
    ensures
      var w1, id := Run(env, Next(env, w, SubmitProposal(m)), steps), w.dao.nextId;
      Good(env, w1) && id in w1.dao.proposals && w1.dao.proposals[id].content == m.content.content
  {
    hide Run, AdmissibleRun, Good, Next, Submit, Admissible, RegistryHistory;
    var w0 := Next(env, w, SubmitProposal(m));
    NextOk(env, w, SubmitProposal(m));
    RunKeepsOk(env, w0, steps);
    SubmittedContent(env, w, m);
  }

  lemma SubmittedContent(env: Env, w: World, m: MsgSubmitProposal)
    requires Submit(env, w, m).Ok?
    ensures
      var w0, id := Next(env, w, SubmitProposal(m)), w.dao.nextId;
      id in w0.dao.proposals && w0.dao.proposals[id].content == m.content.content
  {
    hide CheckTld, PayDeposit, HasActiveTwin, ContentError, ValidContent;
  }

  lemma WonTldStatus(env: Env, w: World, id: nat, nextTime: nat)
    requires Good(env, w) && IsDue(w, id)
    requires w.dao.proposals[id].content.AddTld? && Wins(w.dao, id)
    ensures
      var w', tld := Next(env, w, EndBlock(nextTime)), ToLower(w.dao.proposals[id].content.tld);
      && id in w'.dao.proposals
      && w'.dao.proposals[id].status ==
           if tld in w.registry.tlds || TakenEarlier(w, DueSet(w), id, tld) then Failed else Executed
  {
    hide WorldOk, ToLower, Wins, EndBlocker, TakenEarlier, WonTlds, TallyOf, WonTldsPermitted, NoneOverdue;
    EndBlockOutcome(env, w);
  }

  lemma WonTldStays(env: Env, w: World, id: nat, nextTime: nat, more: seq<Step>)
    requires Good(env, w) && ValidEnv(env) && IsDue(w, id)
    requires w.dao.proposals[id].content.AddTld? && Wins(w.dao, id)
    ensures
      var w', tld := Next(env, w, EndBlock(nextTime)), ToLower(w.dao.proposals[id].content.tld);
      && tld in w'.registry.tlds
      && (AdmissibleRun(env, w', more) ==> tld in Run(env, w', more).registry.tlds)
  {
    hide Run, AdmissibleRun, WorldOk, Wins, EndBlocker, TldOf, WonTldsPermitted, NoneOverdue;
    hide DaoHistory, NamesRegistered, NoneReserved, ForeignSupply, Surplus;
    var w' := Next(env, w, EndBlock(nextTime));
    WonTldNow(env, w, id);
    EndBlockStep(env, w, EndBlock(nextTime));
    if AdmissibleRun(env, w', more) { RunKeepsOk(env, w', more); }
  }

  lemma WonTldNow(env: Env, w: World, id: nat)
    requires WorldOk(env, w) && IsDue(w, id)
    requires w.dao.proposals[id].content.AddTld? && Wins(w.dao, id)
    ensures ToLower(w.dao.proposals[id].content.tld) in EndBlocker(env, w).registry.tlds
  {
    hide WorldOk, ToLower, Wins, EndBlocker, Outcome, TallyOf;
    EndBlockOutcome(env, w);
    assert TldOf(w, id) in WonTlds(w, DueSet(w));
  }

  /** An export of any reachable state is valid and imports to that very state. */
  lemma ReachableExport(env: Env, w: World, steps: seq<Step>, g: GenesisState)
    requires Initial(env, w) && ValidEnv(env) && AdmissibleRun(env, w, steps)
    requires IsExport(Run(env, w, steps).registry, g)
    ensures ValidGenesis(g) && Init(g) == Run(env, w, steps).registry
  {
    hide Run, AdmissibleRun, Init, RegistryOk, IsExport, ValidGenesis;
    InitialIsGood(env, w);
    RunKeepsOk(env, w, steps);
    GenesisRoundTrip(Run(env, w, steps).registry, g);
  }

  /** An id that is free but was given out before never comes back, and a name stays with its id. */
  lemma IdsAreNotReused(env: Env, w: World, steps: seq<Step>, id: nat)
    requires Good(env, w) && ValidEnv(env) && AdmissibleRun(env, w, steps) && id < w.registry.nextId
    ensures
      var r, r' := w.registry, Run(env, w, steps).registry;
      id in r'.domains ==> id in r.domains && r'.domains[id].name == r.domains[id].name
  {
    hide Run, AdmissibleRun;
    RunKeepsOk(env, w, steps);
  }
}
