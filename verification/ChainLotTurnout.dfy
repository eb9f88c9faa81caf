/**
 Turnout once lots exist. A lot votes once, so no transfer can make the turnout
 grow beyond the power of all users' lots at the submission; that bound is
 reached, and so it decides exactly when the turnout can exceed the snapshot.
 */
module ChainLotTurnout {
  import opened Wrappers
  import opened GoInts
  import opened MapTotals
  import opened Bank
  import opened Environment
  import opened VotingPower
  import opened DaoTypes
  import opened Dao
  import opened DaoInvariant
  import opened DaoMessages
  import opened DaoVoting
  import opened Chain
  import opened ChainTurnout
  import DaoSettlement
  import DaoOutcome
  import Registry

  function LotPowerAt(s: DaoState, k: LotKey, height: nat): int
    requires k in s.lots
  {
    LotPower(s.lots[k], s.params.votingPowerDecayDurationBlocks, height)
  }

  function IdleLots(s: DaoState, voters: set<Account>, height: nat): map<LotKey, int> {
    map k | k in s.lots :: Unspent(k.holder, voters, LotPowerAt(s, k, height))
  }

  /** The power of the lots of users who have not voted. */
  ghost function Idle(s: DaoState, voters: set<Account>, height: nat): int {
    Total(IdleLots(s, voters, height))
  }

  /** The power of all users' lots. */
  ghost function AllLotPower(w: World): int {
    Idle(w.dao, {}, w.height)
  }

  /** What the turnout becomes if every user votes now. */
  ghost function LotClaim(w: World, id: nat): int {
    Voted(w.dao, id) + Idle(w.dao, Voters(w.dao, id), w.height)
  }

  ghost predicate InRange(w: World) {
    w.dao.params.votingPowerDecayDurationBlocks < TWO_63 && w.height < TWO_64
  }

  // ---------- sums over lots ----------

  lemma {:induction false} TotalRestrict<K>(m: map<K, int>, n: map<K, int>)
    requires n.Keys <= m.Keys && forall k <- m :: m[k] == if k in n then n[k] else 0
    ensures Total(m) == Total(n)
    decreases |m|
  {
    if k :| k in m && k !in n {
      TotalRemove(m, k);
      Smaller(m, k);
      TotalRestrict(m - {k}, n);
    } else {
      assert m == n;
    }
  }

  lemma {:induction false} TotalPlus<K>(x: map<K, int>, y: map<K, int>, z: map<K, int>)
    requires x.Keys == y.Keys == z.Keys && forall k <- z :: z[k] == x[k] + y[k]
    ensures Total(z) == Total(x) + Total(y)
    decreases |z|
  {
    if z == map[] {
      assert x == map[] && y == map[];
    } else {
      var k :| k in z;
      TotalRemove(x, k);
      TotalRemove(y, k);
      TotalRemove(z, k);
      Smaller(z, k);
      TotalPlus(x - {k}, y - {k}, z - {k});
    }
  }

  /** A voter takes exactly the own lots out of the idle ones. */
  lemma IdleWithout(s: DaoState, voters: set<Account>, voter: Account, height: nat)
    requires voter !in voters && voter.User?
    ensures Idle(s, voters, height) == Idle(s, voters + {voter}, height) + Total(LotPowers(s, voter, height))
  {
    hide LotPower;
    var x, z := IdleLots(s, voters + {voter}, height), IdleLots(s, voters, height);
    var y := map k | k in s.lots :: if k.holder == voter then LotPowerAt(s, k, height) else 0;
    TotalPlus(x, y, z);
    TotalRestrict(y, LotPowers(s, voter, height));
  }

  lemma IdleNonNegative(env: Env, s: DaoState, voters: set<Account>, height: nat)
    requires LotsOk(env, s, height)
    ensures Idle(s, voters, height) >= 0
    ensures forall k <- s.lots :: LotPowerAt(s, k, height) >= 0
  {
    hide LotPower;
    forall k | k in s.lots ensures LotPowerAt(s, k, height) >= 0 {
      assert LotOk(env, s, k, height);
      LotPowerNonNegative(s.lots[k], s.params.votingPowerDecayDurationBlocks, height);
    }
    TotalNonNegative(IdleLots(s, voters, height));
  }

  lemma IdleFalls(env: Env, s: DaoState, voters: set<Account>, height: nat, height': nat)
    requires LotsOk(env, s, height) && s.params.votingPowerDecayDurationBlocks < TWO_63
    requires height <= height' < TWO_64
    ensures Idle(s, voters, height') <= Idle(s, voters, height)
  {
    hide LotPower;
    var x, y := IdleLots(s, voters, height'), IdleLots(s, voters, height);
    forall k | k in x ensures x[k] <= y[k] {
      assert LotOk(env, s, k, height);
      LotFalls(s.lots[k], s.params.votingPowerDecayDurationBlocks, height, height');
    }
    TotalMonotone(x, y);
  }

  lemma SameIdle(s: DaoState, s': DaoState, voters: set<Account>, height: nat)
    requires s'.lots == s.lots && s'.params == s.params
    ensures Idle(s', voters, height) == Idle(s, voters, height)
  {
    hide LotPower;
    assert IdleLots(s', voters, height) == IdleLots(s, voters, height);
  }

  // ---------- one step ----------

  /** An accepted vote moves its weight from the idle lots to the turnout. */
  lemma VoteLotClaim(env: Env, w: World, m: MsgVote, id: nat)
    requires WorldOk(env, w) && ValidEnv(env) && w.dao.lots != map[]
    requires CastVote(env, w, m).Ok? && SignedByUser(env, m.voter)
    ensures LotClaim(CastVote(env, w, m).value, id) <= LotClaim(w, id)
    ensures
      m.proposalId == id && m.option != OPTION_UNSPECIFIED ==>
        LotClaim(CastVote(env, w, m).value, id) == LotClaim(w, id)
  {
    hide Idle, WorldOk, Turnout, LotPowers;
    var w' := CastVote(env, w, m).value;
    var voter := env.parseAddress(m.voter).value;
    var key := VoteKey(m.proposalId, voter);
    CastVoteKeepsOk(env, w, m);
    SameIdle(w.dao, w'.dao, Voters(w'.dao, id), w.height);
    if m.proposalId == id {
      TallyWithVote(w.dao.votes, id, key, w'.dao.votes[key]);
      assert Voters(w'.dao, id) == Voters(w.dao, id) + {voter};
      IdleWithout(w.dao, Voters(w.dao, id), voter, w.height);
      PowersNonNegative(env, w, voter);
    } else {
      TallyOfOther(w.dao.votes, id, key, w'.dao.votes[key]);
      assert Voters(w'.dao, id) == Voters(w.dao, id);
    }
  }

  lemma PowersNonNegative(env: Env, w: World, voter: Account)
    requires WorldOk(env, w) && w.dao.lots != map[]
    ensures Total(LotPowers(w.dao, voter, w.height)) >= 0
  {
    PowerNonNegative(env, w.dao, w.bank, voter, w.height);
  }

  /** What a step does to the heights and to the votes. */
  lemma StepFrame(env: Env, w: World, step: Step)
    requires Good(env, w) && ValidEnv(env) && Admissible(env, w, step) && InRange(w)
    ensures
      var w' := Next(env, w, step);
      && Good(env, w') && InRange(w') && w.height <= w'.height && w'.dao.params == w.dao.params
      && (if step.CastAVote? then w'.height == w.height else w'.dao.votes == w.dao.votes)
      && (forall k <- w.dao.lots :: k in w'.dao.lots && w'.dao.lots[k] == w.dao.lots[k])
  {
    hide WorldOk, Submit, CastVote, EndBlocker, NoneOverdue, Registry.Handle, DaoSettlement.WonTldsPermitted;
    NextOk(env, w, step);
    if step.EndBlock? {
      DaoOutcome.EndBlockOutcome(env, w);
    } else {
      StepHeight(env, w, step);
    }
  }

  lemma StepHeight(env: Env, w: World, step: Step)
    requires !step.EndBlock?
    ensures Next(env, w, step).height == w.height
    ensures !step.CastAVote? ==> Next(env, w, step).dao.votes == w.dao.votes
  {
    hide PayDeposit, HasActiveTwin, CheckTld, ContentError, ValidContent, VoterPower, Registry.Handle;
  }

  lemma StepLotClaim(env: Env, w: World, step: Step, id: nat)
    requires Good(env, w) && ValidEnv(env) && Admissible(env, w, step) && InRange(w)
    requires w.dao.lots != map[] && Next(env, w, step).dao.lots == w.dao.lots
    ensures LotClaim(Next(env, w, step), id) <= LotClaim(w, id)
  {
    hide Idle, Voted, Voters, Good, Submit, CastVote, EndBlocker, Registry.Handle;
    var w' := Next(env, w, step);
    StepFrame(env, w, step);
    if step.CastAVote? {
      if CastVote(env, w, step.vote).Ok? {
        assert SignedByUser(env, step.vote.voter);
        VoteLotClaim(env, w, step.vote, id) by { GoodIsOk(env, w); }
      }
    } else {
      SameTurnout(w.dao, w'.dao, id);
      SameIdle(w.dao, w'.dao, Voters(w.dao, id), w'.height);
      IdleFalls(env, w.dao, Voters(w.dao, id), w.height, w'.height) by { GoodLots(env, w); }
    }
  }

  lemma GoodLots(env: Env, w: World)
    requires Good(env, w)
    ensures LotsOk(env, w.dao, w.height)
  {
  }

  // ---------- every run ----------

  lemma {:induction false} RunLotClaim(env: Env, w: World, steps: seq<Step>, id: nat)
    requires Good(env, w) && ValidEnv(env) && AdmissibleRun(env, w, steps) && InRange(w)
    requires w.dao.lots != map[] && Run(env, w, steps).dao.lots == w.dao.lots
    ensures Good(env, Run(env, w, steps)) && LotClaim(Run(env, w, steps), id) <= LotClaim(w, id)
    decreases |steps|
  {
    hide Good, Next, Admissible, LotClaim, InRange;
    if steps != [] {
      var w1 := Next(env, w, steps[0]);
      StepFrame(env, w, steps[0]);
      RunKeepsOk(env, w1, steps[1..]);
      assert w1.dao.lots == w.dao.lots;
      StepLotClaim(env, w, steps[0], id);
      RunLotClaim(env, w1, steps[1..], id);
    }
  }

  lemma ClaimWhenSubmitted(w: World, id: nat)
    requires JustSubmitted(w, id)
    ensures Voted(w.dao, id) == 0 && LotClaim(w, id) == AllLotPower(w)
  {
    assert Turnout(w.dao.votes, id) == map[];
    assert Voters(w.dao, id) == {};
  }

  lemma TurnoutWithinClaim(env: Env, w: World, id: nat)
    requires Good(env, w)
    ensures Voted(w.dao, id) <= LotClaim(w, id)
  {
    IdleNonNegative(env, w.dao, Voters(w.dao, id), w.height);
  }

  /** Whatever is transferred, a lot votes once. */
  lemma TurnoutWithinLots(env: Env, w: World, steps: seq<Step>, id: nat)
    requires Good(env, w) && ValidEnv(env) && AdmissibleRun(env, w, steps) && InRange(w)
    requires w.dao.lots != map[] && Run(env, w, steps).dao.lots == w.dao.lots
    requires JustSubmitted(w, id)
    ensures Voted(Run(env, w, steps).dao, id) <= AllLotPower(w)
  {
    hide Good, Run, AdmissibleRun, LotClaim, AllLotPower, Voted, JustSubmitted;
    RunLotClaim(env, w, steps, id);
    ClaimWhenSubmitted(w, id);
    TurnoutWithinClaim(env, Run(env, w, steps), id);
  }

  // ---------- the bound is reached ----------

  /** The lots that count, of users who have not voted. */
  ghost function Waiting(w: World, id: nat): set<LotKey> {
    set k | k in w.dao.lots && k.holder.User? && k.holder !in Voters(w.dao, id) && LotPowerAt(w.dao, k, w.height) > 0
  }

  lemma NobodyWaits(env: Env, w: World, id: nat)
    requires Good(env, w) && Waiting(w, id) == {}
    ensures Voted(w.dao, id) == LotClaim(w, id)
  {
    hide LotPower;
    IdleNonNegative(env, w.dao, Voters(w.dao, id), w.height);
    var idle := IdleLots(w.dao, Voters(w.dao, id), w.height);
    forall k | k in idle ensures idle[k] == 0 {
      assert k !in Waiting(w, id);
    }
    TotalOfZeros(idle);
  }

  lemma MayVote(env: Env, w: World, id: nat, k: LotKey)
    requires Good(env, w) && k in Waiting(w, id)
    requires IsActive(w.dao, id) && w.height <= w.dao.proposals[id].votingEndBlock
    ensures env.parseAddress(w.dao.lots[k].voter) == Some(k.holder) && VoteKey(id, k.holder) !in w.dao.votes
    ensures CastVote(env, w, MsgVote(id, w.dao.lots[k].voter, OPTION_YES)).Ok?
  {
    hide LotPower, NoneOverdue, DaoSettlement.WonTldsPermitted, TalliesStored, ActiveDistinct, ProposalsOk;
    hide Sound, Registry.RegistryOk, Solvent;
    assert LotOk(env, w.dao, k, w.height);
    IdleNonNegative(env, w.dao, {}, w.height);
    TotalAtLeast(LotPowers(w.dao, k.holder, w.height), k);
  }

  /** One of them votes. */
  lemma NextVote(env: Env, w: World, id: nat, k: LotKey) returns (step: Step)
    requires Good(env, w) && ValidEnv(env) && k in Waiting(w, id)
    requires IsActive(w.dao, id) && w.height <= w.dao.proposals[id].votingEndBlock
    ensures Admissible(env, w, step)
    ensures
      var w' := Next(env, w, step);
      && Good(env, w') && w' == w.(dao := w.dao.(votes := w'.dao.votes))
      && LotClaim(w', id) == LotClaim(w, id) && |Waiting(w', id)| < |Waiting(w, id)|
  {
    hide LotPower, Good, Idle, Voted, VoterPower;
    var m := MsgVote(id, w.dao.lots[k].voter, OPTION_YES);
    step := CastAVote(m);
    MayVote(env, w, id, k);
    VoteLotClaim(env, w, m, id) by { GoodIsOk(env, w); }
    NextOkGood(env, w, step);
    var w' := Next(env, w, step);
    assert VoteKey(id, k.holder) in w'.dao.votes && k !in Waiting(w', id);
    FewerMembers(Waiting(w', id), Waiting(w, id));
  }

  lemma FewerMembers<T>(x: set<T>, y: set<T>)
    requires x < y
    ensures |x| < |y|
  {
    assert y == x + (y - x);
  }

  lemma {:induction false} EverybodyVotes(env: Env, w: World, id: nat) returns (steps: seq<Step>)
    requires Good(env, w) && ValidEnv(env)
    requires IsActive(w.dao, id) && w.height <= w.dao.proposals[id].votingEndBlock
    ensures AdmissibleRun(env, w, steps) && Run(env, w, steps).dao.lots == w.dao.lots
    ensures Voted(Run(env, w, steps).dao, id) == LotClaim(w, id)
    decreases |Waiting(w, id)|
  {
    hide Good, Next, Admissible, LotClaim, Waiting, Voted;
    if Waiting(w, id) == {} {
      steps := [];
      NobodyWaits(env, w, id);
    } else {
      var k :| k in Waiting(w, id);
      var step := NextVote(env, w, id, k);
      var rest := EverybodyVotes(env, Next(env, w, step), id);
      steps := [step] + rest;
      FirstStep(env, w, step, rest);
    }
  }

  lemma LotTurnoutFits(env: Env, w: World, id: nat)
    requires Good(env, w) && ValidEnv(env) && InRange(w) && w.dao.lots != map[] && JustSubmitted(w, id)
    ensures
      AllLotPower(w) <= w.dao.proposals[id].totalVotingPowerAtSnapshot <==>
        forall steps :: TurnoutFits(env, w, steps, id)
  {
    hide Good, Run, AdmissibleRun, LotClaim, AllLotPower, Voted;
    if AllLotPower(w) <= w.dao.proposals[id].totalVotingPowerAtSnapshot {
      forall steps | AdmissibleRun(env, w, steps) && Run(env, w, steps).dao.lots == w.dao.lots
        ensures TurnoutFits(env, w, steps, id)
      {
        TurnoutWithinLots(env, w, steps, id);
      }
    } else {
      var steps := EverybodyVotes(env, w, id);
      ClaimWhenSubmitted(w, id);
      assert !TurnoutFits(env, w, steps, id);
    }
  }

  /**
   For a proposal submitted once lots exist: its turnout stays within the
   snapshot in every run without a further grant if and only if the users' lots
   count for no more than the snapshot when it is submitted.
   */
  lemma LotTurnoutFitsExactly(env: Env, w: World, m: MsgSubmitProposal)
    requires Good(env, w) && ValidEnv(env) && InRange(w) && w.dao.lots != map[]
    requires Admissible(env, w, SubmitProposal(m)) && Submit(env, w, m).Ok?
    ensures
      var w0, id := Next(env, w, SubmitProposal(m)), w.dao.nextId;
      && id in w0.dao.proposals
      && (AllLotPower(w0) <= w0.dao.proposals[id].totalVotingPowerAtSnapshot <==>
            forall steps :: TurnoutFits(env, w0, steps, id))
  {
    hide Good, Next, TurnoutFits, AllLotPower;
    StepFrame(env, w, SubmitProposal(m));
    SubmissionIsNew(env, w, m);
    LotTurnoutFits(env, Next(env, w, SubmitProposal(m)), w.dao.nextId);
  }

  // ---------- a first grant between the votes ----------

  function UsedLots(s: DaoState, voters: set<Account>): map<LotKey, int> {
    map k | k in s.lots :: if k.holder in voters then s.lots[k].amount else 0
  }

  /** The amounts of the lots whose holders have voted on the proposal. */
  ghost function Used(s: DaoState, id: nat): int {
    Total(UsedLots(s, Voters(s, id)))
  }

  lemma LotWithinAmount(lot: Lot, decay: uint64, height: nat)
    requires lot.amount > 0 && decay < TWO_63 && lot.grantHeight <= height < TWO_64
    ensures LotPower(lot, decay, height) <= lot.amount
  {
    hide LotPower;
    if decay == 0 {
      NoDecay(lot, height);
    } else {
      LotPowerIsDecayed(lot, decay, height);
      if height - lot.grantHeight < decay { DecayBounds(lot.amount, height - lot.grantHeight, decay); }
    }
  }

  function OwnLots(s: DaoState, voter: Account): map<LotKey, int> {
    map k | k in s.lots :: if k.holder == voter then s.lots[k].amount else 0
  }

  lemma PowerWithinLots(env: Env, s: DaoState, voter: Account, height: nat)
    requires LotsOk(env, s, height) && s.params.votingPowerDecayDurationBlocks < TWO_63 && height < TWO_64
    ensures Total(LotPowers(s, voter, height)) <= Total(OwnLots(s, voter))
  {
    hide LotPower;
    var y := map k | k in s.lots :: if k.holder == voter then LotPowerAt(s, k, height) else 0;
    forall k | k in y ensures y[k] <= OwnLots(s, voter)[k] {
      assert LotOk(env, s, k, height);
      LotWithinAmount(s.lots[k], s.params.votingPowerDecayDurationBlocks, height);
    }
    TotalRestrict(y, LotPowers(s, voter, height));
    TotalMonotone(y, OwnLots(s, voter));
  }

  lemma UsedWithVoter(s: DaoState, voters: set<Account>, voter: Account)
    requires voter !in voters
    ensures Total(UsedLots(s, voters + {voter})) == Total(UsedLots(s, voters)) + Total(OwnLots(s, voter))
  {
    TotalPlus(UsedLots(s, voters), OwnLots(s, voter), UsedLots(s, voters + {voter}));
  }

  lemma UsedGrows(env: Env, s: DaoState, s': DaoState, voters: set<Account>, height: nat)
    requires LotsOk(env, s', height) && forall k <- s.lots :: k in s'.lots && s'.lots[k] == s.lots[k]
    ensures 0 <= Total(UsedLots(s, voters)) <= Total(UsedLots(s', voters))
  {
    var x := map k | k in s'.lots :: if k in s.lots then UsedLots(s, voters)[k] else 0;
    forall k | k in s'.lots ensures s'.lots[k].amount > 0 { assert LotOk(env, s', k, height); }
    TotalRestrict(x, UsedLots(s, voters));
    TotalNonNegative(x);
    TotalMonotone(x, UsedLots(s', voters));
  }

  lemma UsedNothing(s: DaoState, id: nat)
    requires s.lots == map[]
    ensures Used(s, id) == 0
  {
    assert UsedLots(s, Voters(s, id)) == map[];
  }

  /** Before the first grant the claim is within the snapshot; after it the rest of the turnout is lots. */
  ghost predicate Bounded(env: Env, w: World, id: nat, snapshot: int) {
    && Voted(w.dao, id) <= snapshot + Used(w.dao, id)
    && (w.dao.lots == map[] ==> Claim(env, w, id) <= snapshot)
  }

  lemma VoteUsesLots(env: Env, w: World, m: MsgVote, id: nat)
    requires WorldOk(env, w) && ValidEnv(env) && InRange(w) && w.dao.lots != map[] && CastVote(env, w, m).Ok?
    ensures
      var s' := CastVote(env, w, m).value.dao;
      Voted(s', id) - Used(s', id) <= Voted(w.dao, id) - Used(w.dao, id)
  {
    hide WorldOk, Turnout, LotPowers, UsedLots, OwnLots;
    var w', voter := CastVote(env, w, m).value, env.parseAddress(m.voter).value;
    var key := VoteKey(m.proposalId, voter);
    CastVoteKeepsOk(env, w, m);
    SameUsed(w.dao, w'.dao, Voters(w'.dao, id));
    if m.proposalId == id {
      TallyWithVote(w.dao.votes, id, key, w'.dao.votes[key]);
      assert Voters(w'.dao, id) == Voters(w.dao, id) + {voter};
      UsedWithVoter(w.dao, Voters(w.dao, id), voter);
      PowerWithinLots(env, w.dao, voter, w.height) by { OkLots(env, w); }
      PowersNonNegative(env, w, voter);
    } else {
      TallyOfOther(w.dao.votes, id, key, w'.dao.votes[key]);
      assert Voters(w'.dao, id) == Voters(w.dao, id);
    }
  }

  lemma OkLots(env: Env, w: World)
    requires WorldOk(env, w)
    ensures LotsOk(env, w.dao, w.height)
  {
  }

  lemma SameUsed(s: DaoState, s': DaoState, voters: set<Account>)
    requires s'.lots == s.lots
    ensures UsedLots(s', voters) == UsedLots(s, voters)
  {
  }

  lemma StepBounded(env: Env, w: World, step: Step, id: nat, snapshot: int)
    requires Good(env, w) && ValidEnv(env) && Admissible(env, w, step) && InRange(w)
    requires !Recycles(w, step, id) && Bounded(env, w, id, snapshot)
    ensures Bounded(env, Next(env, w, step), id, snapshot)
  {
    hide Good, Voted, Voters, Claim, Used, Submit, CastVote, EndBlocker, Registry.Handle;
    var w' := Next(env, w, step);
    StepFrame(env, w, step);
    if w'.dao.lots == map[] {
      EmptyBefore(w.dao, w'.dao);
      StepClaim(env, w, step, id);
      VotedWithinClaim(env, w', id) by { GoodIsOk(env, w'); }
      UsedNothing(w'.dao, id);
    } else if step.CastAVote? {
      if CastVote(env, w, step.vote).Ok? {
        VoteKeepsLots(env, w, step.vote);
        VoteUsesLots(env, w, step.vote, id) by { GoodIsOk(env, w); }
      }
    } else {
      SameTurnout(w.dao, w'.dao, id);
      UsedGrows(env, w.dao, w'.dao, Voters(w.dao, id), w'.height) by { GoodLots(env, w'); }
      assert Used(w.dao, id) <= Used(w'.dao, id) by { UsedIs(w.dao, id); UsedIs(w'.dao, id); }
    }
  }

  lemma UsedIs(s: DaoState, id: nat)
    ensures Used(s, id) == Total(UsedLots(s, Voters(s, id)))
  {
  }

  lemma EmptyBefore(s: DaoState, s': DaoState)
    requires s'.lots == map[] && forall k <- s.lots :: k in s'.lots
    ensures s.lots == map[]
  {
    assert s.lots.Keys == {};
  }

  lemma VoteKeepsLots(env: Env, w: World, m: MsgVote)
    requires CastVote(env, w, m).Ok?
    ensures CastVote(env, w, m).value.dao.lots == w.dao.lots
  {
    hide VoterPower;
  }

  lemma {:induction false} RunBounded(env: Env, w: World, steps: seq<Step>, id: nat, snapshot: int)
    requires Good(env, w) && ValidEnv(env) && AdmissibleRun(env, w, steps) && InRange(w)
    requires QuietRun(env, w, steps, id) && Bounded(env, w, id, snapshot)
    ensures Bounded(env, Run(env, w, steps), id, snapshot)
    decreases |steps|
  {
    hide Good, Next, Admissible, Bounded, InRange, Recycles;
    if steps != [] {
      StepFrame(env, w, steps[0]);
      StepBounded(env, w, steps[0], id, snapshot);
      RunBounded(env, Next(env, w, steps[0]), steps[1..], id, snapshot);
    }
  }

  lemma BoundedAtStart(env: Env, w: World, id: nat)
    requires Good(env, w) && JustSubmitted(w, id)
    ensures Bounded(env, w, id, w.dao.proposals[id].totalVotingPowerAtSnapshot)
  {
    hide WorldOk, Claim, NoneOverdue, DaoSettlement.WonTldsPermitted;
    ClaimAtStart(env, w, id);
    assert forall k <- UsedLots(w.dao, {}) :: UsedLots(w.dao, {})[k] == 0;
    TotalOfZeros(UsedLots(w.dao, {}));
  }

  /**
   Whenever a proposal is submitted, and however many grants are executed while
   it is open: unless tokens are recycled before the first grant, its turnout
   never exceeds the snapshot by more than the lots of those who voted, and by
   nothing as long as there is no lot.
   */
  lemma TurnoutBound(env: Env, w: World, m: MsgSubmitProposal, steps: seq<Step>)
    requires Good(env, w) && ValidEnv(env) && InRange(w)
    requires Admissible(env, w, SubmitProposal(m)) && Submit(env, w, m).Ok?
    requires
      var w0 := Next(env, w, SubmitProposal(m));
      AdmissibleRun(env, w0, steps) && QuietRun(env, w0, steps, w.dao.nextId)
    ensures
      var w0, id := Next(env, w, SubmitProposal(m)), w.dao.nextId;
      var w' := Run(env, w0, steps);
      && id in w0.dao.proposals
      && Voted(w'.dao, id) <= w0.dao.proposals[id].totalVotingPowerAtSnapshot + Used(w'.dao, id)
      && (w'.dao.lots == map[] ==> Used(w'.dao, id) == 0)
  {
    hide Good, Next, Run, AdmissibleRun, QuietRun, Admissible, Voted, Used, Claim;
    var w0, id := Next(env, w, SubmitProposal(m)), w.dao.nextId;
    StepFrame(env, w, SubmitProposal(m));
    SubmissionIsNew(env, w, m);
    BoundedAtStart(env, w0, id);
    RunBounded(env, w0, steps, id, w0.dao.proposals[id].totalVotingPowerAtSnapshot);
    if Run(env, w0, steps).dao.lots == map[] { UsedNothing(Run(env, w0, steps).dao, id); }
  }

  // ---------- lots against the supply ----------

  /** Different lots come from different grants. */
  lemma {:induction false} TotalByGrant(m: map<LotKey, int>, n: map<nat, int>)
    requires forall k <- m :: k.proposal in n && m[k] <= n[k.proposal]
    requires forall i, j :: i in m && j in m && i.proposal == j.proposal ==> i == j
    requires forall id <- n :: n[id] >= 0
    ensures Total(m) <= Total(n)
    decreases |m|
  {
    if m == map[] {
      TotalNonNegative(n);
    } else {
      var k :| k in m;
      TotalRemove(m, k);
      TotalRemove(n, k.proposal);
      Smaller(m, k);
      TotalByGrant(m - {k}, n - {k.proposal});
    }
  }

  /** All lots together count for no more than what was granted. */
  lemma LotsWithinGrants(env: Env, w: World)
    requires WorldOk(env, w) && InRange(w)
    ensures AllLotPower(w) <= Granted(w.dao, w.dao.params.votingTokenDenom)
  {
    hide LotPower, ActiveDistinct, VotesOk, TalliesStored, Solvent, Sound, Registry.RegistryOk;
    var s, d := w.dao, w.dao.params.votingTokenDenom;
    var idle, grants := IdleLots(s, {}, w.height), GrantEntries(s, d);
    forall k | k in idle ensures k.proposal in grants && idle[k] <= grants[k.proposal] {
      assert LotOk(env, s, k, w.height);
      LotWithinAmount(s.lots[k], s.params.votingPowerDecayDurationBlocks, w.height);
    }
    forall i, j | i in idle && j in idle && i.proposal == j.proposal ensures i == j {
      assert LotOk(env, s, i, w.height) && LotOk(env, s, j, w.height);
    }
    forall id | id in grants ensures grants[id] >= 0 { assert ProposalOk(env, s, id); }
    TotalByGrant(idle, grants);
  }

  /**
   From a genesis: as long as no more voting tokens were burned, in deposits and
   fees, than there were at the start, the lots never count for more than the
   supply, and the turnout of every proposal submitted once lots exist stays
   within its snapshot in every run without a further grant.
   */
  lemma LotTurnoutFitsFromGenesis(env: Env, w: World, before: seq<Step>, m: MsgSubmitProposal, after: seq<Step>)
    requires Initial(env, w) && ValidEnv(env) && AdmissibleRun(env, w, before)
    requires
      var w1, d := Run(env, w, before), w.dao.params.votingTokenDenom;
      && InRange(w1) && w1.dao.lots != map[]
      && Burned(w1.dao, d) + Fees(env, w, before, d) <= Supply(w.bank, d)
      && Admissible(env, w1, SubmitProposal(m)) && Submit(env, w1, m).Ok?
    ensures
      var w1 := Run(env, w, before);
      var w2, id := Next(env, w1, SubmitProposal(m)), w1.dao.nextId;
      && id in w2.dao.proposals && AllLotPower(w2) <= w2.dao.proposals[id].totalVotingPowerAtSnapshot
      && TurnoutFits(env, w2, after, id)
  {
    hide Good, Initial, Run, AdmissibleRun, Fees, Next, Admissible, TurnoutFits, AllLotPower, Granted, Burned;
    var w1, d := Run(env, w, before), w.dao.params.votingTokenDenom;
    var w2, id := Next(env, w1, SubmitProposal(m)), w1.dao.nextId;
    InitialIsGood(env, w);
    RunKeepsOk(env, w, before);
    Books(env, w, before, d);
    SubmissionFacts(env, w1, m);
    SubmissionIsNew(env, w1, m);
    LotsWithinGrants(env, w2) by { GoodIsOk(env, w2); }
    StepFrame(env, w1, SubmitProposal(m));
    LotTurnoutFits(env, w2, id);
  }

  lemma SubmissionFacts(env: Env, w: World, m: MsgSubmitProposal)
    requires Good(env, w) && ValidEnv(env) && Admissible(env, w, SubmitProposal(m)) && Submit(env, w, m).Ok?
    ensures
      var w', d := Next(env, w, SubmitProposal(m)), w.dao.params.votingTokenDenom;
      && w'.dao.params == w.dao.params && Supply(w'.bank, d) == Supply(w.bank, d)
      && Granted(w'.dao, d) == Granted(w.dao, d)
  {
    hide Good, Next, Granted, WithNew;
    var payer, c := env.parseAddress(m.proposer).value, m.content.content;
    SubmissionShape(env, w, m);
    PayDepositEffect(w.bank, payer, Deposit(w.dao.params, c), m.initialDeposit, w.dao.params.votingTokenDenom);
    var p := Next(env, w, SubmitProposal(m)).dao.proposals[w.dao.nextId];
    AccountsWithNew(env, w.dao, p, w.dao.params.votingTokenDenom);
  }

  /** A submission in its parts. */
  lemma SubmissionShape(env: Env, w: World, m: MsgSubmitProposal)
    requires Good(env, w) && Admissible(env, w, SubmitProposal(m)) && Submit(env, w, m).Ok?
    ensures
      var w', c := Next(env, w, SubmitProposal(m)), m.content.content;
      var paid := PayDeposit(w.bank, env.parseAddress(m.proposer).value, Deposit(w.dao.params, c), m.initialDeposit);
      && env.parseAddress(m.proposer).value.User? && paid == Ok(w'.bank)
      && w.dao.nextId !in w.dao.proposals && w.dao.nextId in w'.dao.proposals
      && w'.dao.proposals[w.dao.nextId].status == VotingPeriod
      && w'.dao == WithNew(w.dao, w'.dao.proposals[w.dao.nextId])
      && w'.dao.params == w.dao.params
  {
    hide CheckTld, PayDeposit, HasActiveTwin, ContentError, ValidContent, NoneOverdue, DaoSettlement.WonTldsPermitted;
    hide LotsOk, VotesOk, TalliesStored, ActiveDistinct, Solvent, Sound, Registry.RegistryOk;
    FreshId(env, w.dao);
  }
}
