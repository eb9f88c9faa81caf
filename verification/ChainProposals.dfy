/**
 A proposal through a whole run: it is open for exactly its voting period, and
 once it is finished its status is what its stored votes decide.
 */
module ChainProposals {
  import opened LegacyDec
  import opened Bank
  import opened Environment
  import opened DaoTypes
  import opened DaoDecision
  import opened Dao
  import opened DaoInvariant
  import opened DaoVoting
  import opened DaoSettlement
  import opened DaoOutcome
  import opened DaoEffects
  import opened Chain
  import Registry

  // ---------- the voting period ----------

  /** The proposal is open, and its voting period ends with the given block. */
  ghost predicate OpenUntil(w: World, id: nat, end: nat) {
    && id in w.dao.proposals && w.dao.proposals[id].status == VotingPeriod
    && w.dao.proposals[id].votingEndBlock == end
  }

  lemma SubmittedIsOpen(env: Env, w: World, m: MsgSubmitProposal)
    requires Good(env, w) && ValidEnv(env) && Admissible(env, w, SubmitProposal(m)) && Submit(env, w, m).Ok?
    ensures
      var w0 := Next(env, w, SubmitProposal(m));
      && Good(env, w0) && w0.height == w.height && w0.dao.params == w.dao.params
      && OpenUntil(w0, w.dao.nextId, w.height + w.dao.params.votingPeriodBlocks)
  {
    hide WorldOk, Submit;
    NextOk(env, w, SubmitProposal(m));
    SubmitEffect(env, w, m, DAO, 0);
  }

  lemma StepOpen(env: Env, w: World, step: Step, id: nat, end: nat)
    requires Good(env, w) && ValidEnv(env) && Admissible(env, w, step) && OpenUntil(w, id, end)
    ensures
      var w' := Next(env, w, step);
      && Good(env, w') && w'.dao.params == w.dao.params
      && w'.height == (if step.EndBlock? then w.height + 1 else w.height)
      && (if step.EndBlock? && w.height > end then id in w'.dao.proposals && w'.dao.proposals[id].status != VotingPeriod
          else OpenUntil(w', id, end))
  {
    hide WorldOk, EndBlocker, Submit, CastVote, Registry.Handle, WonTldsPermitted, NoneOverdue;
    NextOk(env, w, step);
    if step.EndBlock? {
      EndBlockerKeepsOk(env, w);
    } else {
      OnlyNewProposals(env, w, step);
    }
  }

  /** Before the end of a block no proposal in the store changes; a submission adds an open one. */
  lemma OnlyNewProposals(env: Env, w: World, step: Step)
    requires Good(env, w) && Admissible(env, w, step) && !step.EndBlock?
    ensures
      var w' := Next(env, w, step);
      && w'.height == w.height
      && (forall id <- w.dao.proposals :: id in w'.dao.proposals && w'.dao.proposals[id] == w.dao.proposals[id])
      && (forall id <- w'.dao.proposals :: id in w.dao.proposals || w'.dao.proposals[id].status == VotingPeriod)
  {
    hide PayDeposit, HasActiveTwin, CheckTld, ContentError, ValidContent, VoterPower, Registry.Handle;
    hide ActiveDistinct, VotesOk, TalliesStored, LotsOk, Solvent, Sound, Registry.RegistryOk;
    if step.SubmitProposal? { DaoMessages.FreshId(env, w.dao); }
  }

  lemma {:induction false} RunOpen(env: Env, w: World, steps: seq<Step>, id: nat, end: nat)
    requires Good(env, w) && ValidEnv(env) && AdmissibleRun(env, w, steps) && OpenUntil(w, id, end)
    ensures
      var w' := Run(env, w, steps);
      && Good(env, w') && w'.dao.params == w.dao.params && w.height <= w'.height && id in w'.dao.proposals
      && (w'.height <= end + 1 ==> OpenUntil(w', id, end))
      && (w'.height > end + 1 && w.height <= end + 1 ==> w'.dao.proposals[id].status != VotingPeriod)
    decreases |steps|
  {
    hide Good, Next, Admissible;
    if steps != [] {
      var w1 := Next(env, w, steps[0]);
      StepOpen(env, w, steps[0], id, end);
      RunHistory(env, w1, steps[1..]);
      if OpenUntil(w1, id, end) {
        RunOpen(env, w1, steps[1..], id, end);
      }
    }
  }

  lemma RunHistory(env: Env, w: World, steps: seq<Step>)
    requires Good(env, w) && ValidEnv(env) && AdmissibleRun(env, w, steps)
    ensures
      var w' := Run(env, w, steps);
      && Good(env, w') && w'.dao.params == w.dao.params && w.height <= w'.height
      && forall id <- w.dao.proposals ::
           && id in w'.dao.proposals
           && (w.dao.proposals[id].status != VotingPeriod ==> w'.dao.proposals[id].status != VotingPeriod)
  {
    hide Good, Run, AdmissibleRun;
    RunKeepsOk(env, w, steps);
  }

  /**
   The voting period, from an accepted submission at height h with the period P,
   over every run: up to height h + P the proposal is open, and every user with
   power who has not voted can vote; the block at h + P + 1 takes no vote on it
   and settles it; and it is never open later.
   */
  lemma VotingWindow(env: Env, w: World, m: MsgSubmitProposal, steps: seq<Step>, vote: MsgVote, nextTime: nat)
    requires Good(env, w) && ValidEnv(env) && Admissible(env, w, SubmitProposal(m)) && Submit(env, w, m).Ok?
    requires AdmissibleRun(env, Next(env, w, SubmitProposal(m)), steps)
    requires vote.proposalId == w.dao.nextId && env.parseAddress(vote.voter).Some?
    ensures
      var w1, id := Run(env, Next(env, w, SubmitProposal(m)), steps), w.dao.nextId;
      var end, voter := w.height + w.dao.params.votingPeriodBlocks, env.parseAddress(vote.voter).value;
      && id in w1.dao.proposals
      && (w1.height <= end ==>
            && w1.dao.proposals[id].status == VotingPeriod
            && (CastVote(env, w1, vote).Ok? <==>
                  VoterPower(w1.dao, w1.bank, voter, w1.height) > 0 && VoteKey(id, voter) !in w1.dao.votes))
      && (w1.height > end ==> CastVote(env, w1, vote).Err?)
      && (w1.height == end + 1 ==>
            && w1.dao.proposals[id].status == VotingPeriod
            && var w2 := Next(env, w1, EndBlock(nextTime));
               id in w2.dao.proposals && w2.dao.proposals[id].status in {Rejected, Executed, Failed})
      && (w1.height > end + 1 ==> w1.dao.proposals[id].status in {Rejected, Executed, Failed})
  {
    hide Good, Next, Run, AdmissibleRun, Admissible, Submit, CastVote, VoterPower;
    var w0, id := Next(env, w, SubmitProposal(m)), w.dao.nextId;
    var end, w1 := w.height + w.dao.params.votingPeriodBlocks, Run(env, w0, steps);
    SubmittedIsOpen(env, w, m);
    RunOpen(env, w0, steps, id, end);
    VoteInTime(env, w1, vote);
    FinishedStatus(env, w1, id);
    if w1.height == end + 1 { SettledNow(env, w1, id, end, nextTime); }
  }

  lemma VoteInTime(env: Env, w: World, m: MsgVote)
    requires Good(env, w) && ValidEnv(env) && m.proposalId in w.dao.proposals && env.parseAddress(m.voter).Some?
    ensures
      var p, voter := w.dao.proposals[m.proposalId], env.parseAddress(m.voter).value;
      CastVote(env, w, m).Ok? <==>
        && p.status == VotingPeriod && w.height <= p.votingEndBlock
        && VoteKey(m.proposalId, voter) !in w.dao.votes
        && VoterPower(w.dao, w.bank, voter, w.height) > 0
  {
    hide WorldOk, CastVote, VoterPower;
    VoteAccepted(env, w, m);
  }

  lemma FinishedStatus(env: Env, w: World, id: nat)
    requires Good(env, w) && id in w.dao.proposals
    ensures w.dao.proposals[id].status in {VotingPeriod, Rejected, Executed, Failed}
  {
    assert ProposalOk(env, w.dao, id);
  }

  lemma SettledNow(env: Env, w: World, id: nat, end: nat, nextTime: nat)
    requires Good(env, w) && ValidEnv(env) && OpenUntil(w, id, end) && w.height == end + 1
    ensures
      var w' := Next(env, w, EndBlock(nextTime));
      id in w'.dao.proposals && w'.dao.proposals[id].status in {Rejected, Executed, Failed}
  {
    hide WorldOk, EndBlocker;
    EndBlockerKeepsOk(env, w);
    WorldStatus(env, EndBlocker(env, w), id);
  }

  lemma WorldStatus(env: Env, w: World, id: nat)
    requires WorldOk(env, w) && id in w.dao.proposals
    ensures w.dao.proposals[id].status in {VotingPeriod, Rejected, Executed, Failed}
  {
    assert ProposalOk(env, w.dao, id);
  }

  // ---------- the decision ----------

  /** Every finished proposal is rejected if and only if its stored votes do not win. */
  ghost predicate Decided(s: DaoState) {
    forall id <- s.proposals :: s.proposals[id].status != VotingPeriod ==>
      (s.proposals[id].status == Rejected <==> !Wins(s, id))
  }

  lemma SameDecision(s: DaoState, s': DaoState, id: nat)
    requires id in s.proposals && id in s'.proposals && s'.params == s.params
    requires s'.proposals[id].totalVotingPowerAtSnapshot == s.proposals[id].totalVotingPowerAtSnapshot
    requires TallyOf(s'.votes, id) == TallyOf(s.votes, id)
    ensures Wins(s', id) == Wins(s, id)
  {
    hide TallyOf, Accepts;
  }

  lemma StepDecided(env: Env, w: World, step: Step)
    requires Good(env, w) && ValidEnv(env) && Admissible(env, w, step) && Decided(w.dao)
    ensures Decided(Next(env, w, step).dao)
  {
    hide Good, Next, Admissible, Wins, TallyOf;
    var s, s' := w.dao, Next(env, w, step).dao;
    StepHistory(env, w, step);
    if step.EndBlock? { BlockDecides(env, w, step); } else { OnlyNewProposals(env, w, step); }
    forall id | id in s'.proposals && s'.proposals[id].status != VotingPeriod
      ensures s'.proposals[id].status == Rejected <==> !Wins(s', id)
    {
      if id in s.proposals && s.proposals[id].status != VotingPeriod {
        FrozenTally(s, s', id);
        SameDecision(s, s', id);
      }
    }
  }

  lemma StepHistory(env: Env, w: World, step: Step)
    requires Good(env, w) && ValidEnv(env) && Admissible(env, w, step)
    ensures DaoHistory(w.dao, Next(env, w, step).dao) && TalliesStored(w.dao)
  {
    hide Next, Admissible, DaoHistory, TallyOf, WonTldsPermitted, NoneOverdue, NamesRegistered, Registry.RegistryHistory;
    NextOk(env, w, step);
  }

  lemma BlockDecides(env: Env, w: World, step: Step)
    requires Good(env, w) && step.EndBlock?
    ensures
      var s' := Next(env, w, step).dao;
      && s'.proposals.Keys == w.dao.proposals.Keys
      && forall id <- s'.proposals ::
           s'.proposals[id].status != VotingPeriod && w.dao.proposals[id].status == VotingPeriod ==>
           (s'.proposals[id].status == Rejected <==> !Wins(s', id))
  {
    hide WorldOk, EndBlocker, TallyOf, Wins, WonTlds, WonTldsPermitted, NoneOverdue;
    EndBlockOutcome(env, w);
    EndBlockerParams(env, w);
    var s' := Next(env, w, step).dao;
    forall id | id in s'.proposals ensures Wins(s', id) == Wins(w.dao, id) {
      SameDecision(w.dao, s', id);
    }
  }

  lemma EndBlockerParams(env: Env, w: World)
    requires WorldOk(env, w)
    ensures EndBlocker(env, w).dao.params == w.dao.params
  {
    hide WorldOk, EndBlocker;
    EndBlockerKeepsOk(env, w);
  }

  lemma {:induction false} RunDecided(env: Env, w: World, steps: seq<Step>)
    requires Good(env, w) && ValidEnv(env) && AdmissibleRun(env, w, steps) && Decided(w.dao)
    ensures Decided(Run(env, w, steps).dao) && Good(env, Run(env, w, steps))
    decreases |steps|
  {
    hide Good, Next, Admissible, Decided;
    if steps != [] {
      StepDecided(env, w, steps[0]);
      StepGood(env, w, steps[0]);
      RunDecided(env, Next(env, w, steps[0]), steps[1..]);
    }
  }

  lemma StepGood(env: Env, w: World, step: Step)
    requires Good(env, w) && ValidEnv(env) && Admissible(env, w, step)
    ensures Good(env, Next(env, w, step))
  {
    hide Good, Next, Admissible;
    NextOk(env, w, step);
  }

  /** What it takes to win, on the totals stored with the proposal and the turnout stored in its votes. */
  ghost predicate Earned(s: DaoState, id: nat)
    requires ValidParams(s.params) && id in s.proposals
    requires s.proposals[id].yesVotes >= 0 && s.proposals[id].noVotes >= 0
  {
    var p, voted := s.proposals[id], TallyOf(s.votes, id).voted;
    && voted > 0
    && (if p.totalVotingPowerAtSnapshot > 0
        then Reaches(voted, p.totalVotingPowerAtSnapshot, s.params.quorumPercent)
        else s.params.quorumPercent == 0)
    && (if p.yesVotes + p.noVotes > 0
        then Reaches(p.yesVotes, p.yesVotes + p.noVotes, s.params.minYesThresholdPercent)
        else s.params.minYesThresholdPercent == 0)
  }

  lemma WinsIsEarned(env: Env, w: World, id: nat)
    requires Good(env, w) && id in w.dao.proposals && w.dao.proposals[id].status != VotingPeriod
    ensures ValidParams(w.dao.params)
    ensures w.dao.proposals[id].yesVotes >= 0 && w.dao.proposals[id].noVotes >= 0
    ensures Wins(w.dao, id) <==> Earned(w.dao, id)
    ensures Wins(w.dao, id) && w.dao.params.minYesThresholdPercent > 0 ==> w.dao.proposals[id].yesVotes > 0
  {
    hide TallyOf, Reaches, Accepts, WonTldsPermitted, NoneOverdue, ProposalsOk, ActiveDistinct, LotsOk, Sound, Solvent;
    hide Registry.RegistryOk;
    var t := TallyOf(w.dao.votes, id);
    assert TallyStored(w.dao, id);
    TallyNonNegative(env, w.dao, id);
    AcceptsExactly(w.dao.params, w.dao.proposals[id].totalVotingPowerAtSnapshot, t.yes, t.no, t.voted);
    if t.yes == 0 {
      AcceptsWithoutYes(w.dao.params, w.dao.proposals[id].totalVotingPowerAtSnapshot, t.no, t.voted);
    }
  }

  /**
   In every reachable state a finished proposal is executed or failed if its
   stored votes earned it, and rejected if not; so while a share of YES is asked
   for, nothing is executed without a YES.
   */
  lemma FinishedAsEarned(env: Env, w: World, steps: seq<Step>, id: nat)
    requires Initial(env, w) && ValidEnv(env) && AdmissibleRun(env, w, steps)
    requires id in Run(env, w, steps).dao.proposals && Run(env, w, steps).dao.proposals[id].status != VotingPeriod
    ensures
      var s := Run(env, w, steps).dao;
      && ValidParams(s.params) && s.proposals[id].yesVotes >= 0 && s.proposals[id].noVotes >= 0
      && (s.proposals[id].status == Rejected <==> !Earned(s, id))
      && (s.proposals[id].status in {Executed, Failed} <==> Earned(s, id))
      && (s.proposals[id].status in {Executed, Failed} && s.params.minYesThresholdPercent > 0 ==>
            s.proposals[id].yesVotes > 0)
  {
    hide Good, Run, AdmissibleRun, Earned, Wins;
    InitialIsGood(env, w);
    RunDecided(env, w, steps);
    WinsIsEarned(env, Run(env, w, steps), id);
    FinishedStatus(env, Run(env, w, steps), id);
  }
}
