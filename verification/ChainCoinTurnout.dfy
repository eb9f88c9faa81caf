/**
 Turnout before the first grant. Tokens that voted vote again after a transfer,
 so one of them in a user's hands makes the turnout exceed any bound; that is
 also the only way in which it can exceed the snapshot.
 */
module ChainCoinTurnout {
  import opened Wrappers
  import opened LegacyDec
  import opened Bank
  import opened Environment
  import opened DaoTypes
  import opened DaoDecision
  import opened Dao
  import opened DaoInvariant
  import opened Chain
  import opened ChainTurnout
  import DaoSettlement
  import ChainPower

  /** Every user has an address text. */
  ghost predicate UsersHaveAddresses(env: Env) {
    forall n: nat :: exists t :: env.parseAddress(t) == Some(User(n))
  }

  ghost predicate SomeUserHolds(w: World) {
    exists n: nat :: Balance(w.bank, User(n), w.dao.params.votingTokenDenom) > 0
  }

  // ---------- as long as no token votes twice ----------

  lemma {:induction false} RunClaim(env: Env, w: World, steps: seq<Step>, id: nat)
    requires Good(env, w) && ValidEnv(env) && AdmissibleRun(env, w, steps) && QuietRun(env, w, steps, id)
    requires Run(env, w, steps).dao.lots == map[]
    ensures Good(env, Run(env, w, steps)) && w.dao.lots == map[]
    ensures Claim(env, Run(env, w, steps), id) <= Claim(env, w, id)
    decreases |steps|
  {
    hide Good, Next, Admissible, Claim, Recycles;
    LotsStartEmpty(env, w, steps);
    if steps != [] {
      NextOkGood(env, w, steps[0]);
      RunClaim(env, Next(env, w, steps[0]), steps[1..], id);
      StepClaim(env, w, steps[0], id);
    }
  }

  /**
   Before the first grant, and as long as no voting token goes from somebody who
   has voted on a proposal to a user who has not, the turnout of the proposal
   never exceeds the supply it recorded.
   */
  lemma TurnoutWithinSnapshot(env: Env, w: World, m: MsgSubmitProposal, steps: seq<Step>)
    requires Good(env, w) && ValidEnv(env) && Admissible(env, w, SubmitProposal(m)) && Submit(env, w, m).Ok?
    requires
      var w0 := Next(env, w, SubmitProposal(m));
      && AdmissibleRun(env, w0, steps) && QuietRun(env, w0, steps, w.dao.nextId)
      && Run(env, w0, steps).dao.lots == map[]
    ensures
      var w0, id := Next(env, w, SubmitProposal(m)), w.dao.nextId;
      id in w0.dao.proposals
      && Voted(Run(env, w0, steps).dao, id) <= w0.dao.proposals[id].totalVotingPowerAtSnapshot
  {
    hide Good, Next, Run, AdmissibleRun, QuietRun, Admissible, Claim, Voted;
    var w0, id := Next(env, w, SubmitProposal(m)), w.dao.nextId;
    SubmissionIsNew(env, w, m);
    ClaimAtStart(env, w0, id);
    RunClaim(env, w0, steps, id);
    VotedWithinClaim(env, Run(env, w0, steps), id) by { GoodIsOk(env, Run(env, w0, steps)); }
  }

  // ---------- one token is enough ----------

  /** Before the first grant an accepted vote weighs the voter's tokens. */
  lemma OneVote(env: Env, w: World, id: nat, text: string, voter: Account)
    requires Good(env, w) && ValidEnv(env) && w.dao.lots == map[]
    requires IsActive(w.dao, id) && w.height <= w.dao.proposals[id].votingEndBlock
    requires env.parseAddress(text) == Some(voter) && voter.User? && voter !in Voters(w.dao, id)
    requires Balance(w.bank, voter, w.dao.params.votingTokenDenom) > 0
    ensures
      var step := CastAVote(MsgVote(id, text, OPTION_YES));
      var w' := Next(env, w, step);
      && Good(env, w') && Admissible(env, w, step)
      && w' == w.(dao := w.dao.(votes := w'.dao.votes))
      && Voters(w'.dao, id) == Voters(w.dao, id) + {voter}
      && Voted(w'.dao, id) == Voted(w.dao, id) + Balance(w.bank, voter, w.dao.params.votingTokenDenom)
  {
    hide WorldOk, NoneOverdue, DaoSettlement.WonTldsPermitted, Turnout;
    var step, key := CastAVote(MsgVote(id, text, OPTION_YES)), VoteKey(id, voter);
    var w' := Next(env, w, step);
    assert key !in w.dao.votes;
    NextOkGood(env, w, step);
    TallyWithVote(w.dao.votes, id, key, w'.dao.votes[key]);
  }

  lemma {:induction false} UserBound(s: set<Account>) returns (n: nat)
    ensures forall a <- s :: a.User? ==> a.id < n
    decreases |s|
  {
    if s == {} {
      n := 0;
    } else {
      var x :| x in s;
      n := UserBound(s - {x});
      assert forall a <- s :: a == x || a in s - {x};
      if x.User? && x.id >= n { n := x.id + 1; }
    }
  }

  /** The holder passes the tokens on to a user who has not voted. */
  lemma PassOn(env: Env, w: World, id: nat, from: nat, amount: int) returns (to: nat)
    requires Good(env, w) && ValidEnv(env)
    requires amount == Balance(w.bank, User(from), w.dao.params.votingTokenDenom) > 0
    ensures
      var d := w.dao.params.votingTokenDenom;
      var step := BankSend(User(from), User(to), map[d := amount]);
      var w' := Next(env, w, step);
      && Good(env, w') && Admissible(env, w, step)
      && w' == w.(bank := w'.bank) && Voted(w'.dao, id) == Voted(w.dao, id)
      && User(to) !in Voters(w'.dao, id) && Balance(w'.bank, User(to), d) >= amount
  {
    hide Good, Voted;
    var d := w.dao.params.votingTokenDenom;
    to := UserBound(Voters(w.dao, id) + {User(from)});
    SendBalance(w.bank, User(from), User(to), map[d := amount], User(to), d);
    assert Balance(w.bank, User(to), d) >= 0 by { ChainPower.BalanceNonNegative(env, w, User(to), d); }
    NextOkGood(env, w, BankSend(User(from), User(to), map[d := amount]));
    SameTurnout(w.dao, Next(env, w, BankSend(User(from), User(to), map[d := amount])).dao, id);
  }

  /**
   A user who holds a voting token and has not voted: some run adds any number
   k to the turnout, voting and passing the tokens on in turn.
   */
  lemma {:induction false} Unbounded(env: Env, w: World, id: nat, holder: nat, k: nat) returns (steps: seq<Step>)
    requires Good(env, w) && ValidEnv(env) && UsersHaveAddresses(env) && w.dao.lots == map[]
    requires IsActive(w.dao, id) && w.height <= w.dao.proposals[id].votingEndBlock
    requires User(holder) !in Voters(w.dao, id)
    requires Balance(w.bank, User(holder), w.dao.params.votingTokenDenom) > 0
    ensures AdmissibleRun(env, w, steps) && Run(env, w, steps).dao.lots == map[]
    ensures Voted(Run(env, w, steps).dao, id) >= Voted(w.dao, id) + k
    decreases k
  {
    hide Good, Voted, Voters, Next, Admissible;
    if k == 0 {
      steps := [];
    } else {
      var d, text :=
        w.dao.params.votingTokenDenom, var t :| env.parseAddress(t) == Some(User(holder)); t;
      var n, s1 := Balance(w.bank, User(holder), d), CastAVote(MsgVote(id, text, OPTION_YES));
      var w1 := Next(env, w, s1);
      OneVote(env, w, id, text, User(holder));
      var to := PassOn(env, w1, id, holder, n);
      var s2 := BankSend(User(holder), User(to), map[d := n]);
      var w2 := Next(env, w1, s2);
      var rest := Unbounded(env, w2, id, to, k - 1);
      steps := [s1] + ([s2] + rest);
      FirstStep(env, w, s1, [s2] + rest);
      FirstStep(env, w1, s2, rest);
    }
  }

  /** So a single token in a user's hands meets any quorum. */
  lemma AnyQuorumIsMet(env: Env, w: World, id: nat, holder: nat) returns (steps: seq<Step>)
    requires Good(env, w) && ValidEnv(env) && UsersHaveAddresses(env) && w.dao.lots == map[]
    requires JustSubmitted(w, id) && Balance(w.bank, User(holder), w.dao.params.votingTokenDenom) > 0
    ensures AdmissibleRun(env, w, steps) && Run(env, w, steps).dao.lots == map[]
    ensures
      var snapshot := w.dao.proposals[id].totalVotingPowerAtSnapshot;
      snapshot > 0 && QuorumMet(w.dao.params, snapshot, Voted(Run(env, w, steps).dao, id))
  {
    hide Good, Voted, Run, AdmissibleRun, QuorumMet;
    var snapshot := w.dao.proposals[id].totalVotingPowerAtSnapshot;
    ClaimAtStart(env, w, id);
    HolderInSupply(env, w, holder);
    steps := Unbounded(env, w, id, holder, snapshot);
    FullQuorum(env, w, snapshot, Voted(Run(env, w, steps).dao, id));
  }

  lemma HolderInSupply(env: Env, w: World, holder: nat)
    requires Good(env, w)
    ensures
      Balance(w.bank, User(holder), w.dao.params.votingTokenDenom) <= Supply(w.bank, w.dao.params.votingTokenDenom)
  {
    hide NoneOverdue, DaoSettlement.WonTldsPermitted, ProposalsOk, VotesOk, LotsOk, TalliesStored, ActiveDistinct;
    var d := w.dao.params.votingTokenDenom;
    FreeAtLeast(w.bank, User(holder), d);
    FreeBounds(w.bank, {}, d);
    assert Balance(w.bank, DAO, d) >= 0;
  }

  lemma FullQuorum(env: Env, w: World, snapshot: int, voted: int)
    requires Good(env, w)
    ensures 0 < snapshot <= voted ==> QuorumMet(w.dao.params, snapshot, voted)
  {
    if 0 < snapshot <= voted {
      assert ValidParams(w.dao.params);
      assert w.dao.params.quorumPercent * snapshot <= ONE * snapshot;
      QuorumBounds(w.dao.params, snapshot, voted);
    }
  }

  // ---------- and without one nobody votes ----------

  /** No other proposal holds a deposit of voting tokens that may go back to a user. */
  ghost predicate NothingOwed(env: Env, w: World, id: nat) {
    Owed(env, w.dao, {}, {id}, w.dao.params.votingTokenDenom) == 0
  }

  /** Nobody has voted on the proposal, and while it is open nobody can get a token to vote with. */
  ghost predicate NoCoins(env: Env, w: World, id: nat) {
    && id in w.dao.proposals && id < w.dao.nextId && w.dao.lots == map[]
    && (forall k <- w.dao.votes :: k.proposal != id)
    && (IsActive(w.dao, id) ==> Potential(env, w, {}, {id}) == 0)
  }

  lemma PoorCannotVote(env: Env, w: World, id: nat, m: MsgVote)
    requires Good(env, w) && NoCoins(env, w, id) && m.proposalId == id && SignedByUser(env, m.voter)
    ensures CastVote(env, w, m).Err?
  {
    hide NoneOverdue, DaoSettlement.WonTldsPermitted, ProposalsOk, VotesOk, LotsOk, TalliesStored, ActiveDistinct;
    hide Free, Owed;
    if env.parseAddress(m.voter).Some? && IsActive(w.dao, id) {
      var d, voter := w.dao.params.votingTokenDenom, env.parseAddress(m.voter).value;
      FreeAtLeast(w.bank, voter, d);
      OwedBounds(env, w.dao, {}, {id}, d);
      assert Balance(w.bank, voter, d) >= 0;
    }
  }

  lemma VoteElsewhere(env: Env, w: World, step: Step, id: nat)
    requires Good(env, w) && ValidEnv(env) && step.CastAVote? && SignedByUser(env, step.vote.voter)
    requires NoCoins(env, w, id)
    ensures forall k <- Next(env, w, step).dao.votes :: k.proposal != id
  {
    hide Potential, Good, VoterPower;
    if step.vote.proposalId == id { PoorCannotVote(env, w, id, step.vote); }
  }

  lemma NextIdGrows(env: Env, w: World, step: Step)
    requires Good(env, w) && ValidEnv(env) && Admissible(env, w, step)
    ensures w.dao.nextId <= Next(env, w, step).dao.nextId
  {
    hide Good, Next, Admissible;
    NextOk(env, w, step);
  }

  lemma StepNoCoins(env: Env, w: World, step: Step, id: nat)
    requires Good(env, w) && ValidEnv(env) && Admissible(env, w, step)
    requires NoCoins(env, w, id) && Next(env, w, step).dao.lots == map[]
    ensures NoCoins(env, Next(env, w, step), id)
  {
    hide Potential, Good, Next, Admissible;
    var w' := Next(env, w, step);
    StepKeeps(env, w, step, id);
    NextIdGrows(env, w, step);
    if step.CastAVote? {
      VoteElsewhere(env, w, step, id) by { VoteIsSigned(env, w, step); }
    } else {
      OtherVotes(env, w, step);
    }
    if IsActive(w'.dao, id) {
      if step.EndBlock? { StillOpen(env, w, step, id); }
      StepPotential(env, w, step, {}, {id});
      assert Potential(env, w', {}, {id}) >= 0 by {
        GoodIsOk(env, w');
        PotentialNonNegative(env, w', {}, {id});
      }
    }
  }

  lemma VoteIsSigned(env: Env, w: World, step: Step)
    requires step.CastAVote? && Admissible(env, w, step)
    ensures SignedByUser(env, step.vote.voter)
  {
  }

  lemma StillOpen(env: Env, w: World, step: Step, id: nat)
    requires Good(env, w) && step.EndBlock? && id in w.dao.proposals && IsActive(Next(env, w, step).dao, id)
    ensures !IsDue(w, id)
  {
    hide WorldOk, EndBlocker;
    DaoSettlement.EndBlockerKeepsOk(env, w);
  }

  lemma {:induction false} RunNoCoins(env: Env, w: World, steps: seq<Step>, id: nat)
    requires Good(env, w) && ValidEnv(env) && AdmissibleRun(env, w, steps)
    requires NoCoins(env, w, id) && Run(env, w, steps).dao.lots == map[]
    ensures NoCoins(env, Run(env, w, steps), id)
    decreases |steps|
  {
    hide Good, Next, Admissible, NoCoins;
    if steps != [] {
      var w1 := Next(env, w, steps[0]);
      NextOkGood(env, w, steps[0]);
      LotsStartEmpty(env, w1, steps[1..]);
      StepNoCoins(env, w, steps[0], id);
      RunNoCoins(env, w1, steps[1..], id);
    }
  }

  lemma LotsStartEmpty(env: Env, w: World, steps: seq<Step>)
    requires Good(env, w) && ValidEnv(env) && AdmissibleRun(env, w, steps) && Run(env, w, steps).dao.lots == map[]
    ensures w.dao.lots == map[]
  {
    hide Good, Run, AdmissibleRun;
    RunKeepsOk(env, w, steps);
  }

  lemma NoTurnout(w: World, id: nat)
    requires forall k <- w.dao.votes :: k.proposal != id
    ensures Voted(w.dao, id) == 0
  {
    assert Turnout(w.dao.votes, id) == map[];
  }

  lemma StartsWithoutCoins(env: Env, w: World, id: nat)
    requires Good(env, w) && w.dao.lots == map[] && JustSubmitted(w, id)
    requires NothingOwed(env, w, id) && !SomeUserHolds(w)
    ensures NoCoins(env, w, id)
  {
    hide NoneOverdue, DaoSettlement.WonTldsPermitted, VotesOk, LotsOk, TalliesStored, ActiveDistinct, Free, Owed;
    var d := w.dao.params.votingTokenDenom;
    assert ProposalOk(env, w.dao, id);
    forall a: Account | a.User? ensures Balance(w.bank, a, d) == 0 {
      assert Balance(w.bank, a, d) >= 0;
      assert !(Balance(w.bank, User(a.id), d) > 0);
    }
    FreeOfPoor(w.bank, d);
  }

  // ---------- exactly when the turnout fits ----------

  lemma HolderBreaksSnapshot(env: Env, w: World, id: nat)
    requires Good(env, w) && ValidEnv(env) && UsersHaveAddresses(env) && w.dao.lots == map[]
    requires JustSubmitted(w, id) && SomeUserHolds(w)
    ensures !(forall steps :: TurnoutFits(env, w, steps, id))
  {
    hide Good, Voted, Run, AdmissibleRun;
    var holder: nat :| Balance(w.bank, User(holder), w.dao.params.votingTokenDenom) > 0;
    ClaimAtStart(env, w, id);
    var steps := Unbounded(env, w, id, holder, w.dao.proposals[id].totalVotingPowerAtSnapshot + 1);
    assert !TurnoutFits(env, w, steps, id);
  }

  lemma FitsWithoutHolder(env: Env, w: World, steps: seq<Step>, id: nat)
    requires Good(env, w) && ValidEnv(env) && w.dao.lots == map[] && JustSubmitted(w, id)
    requires NothingOwed(env, w, id) && !SomeUserHolds(w)
    ensures TurnoutFits(env, w, steps, id)
  {
    hide Good, Voted, Run, AdmissibleRun;
    if AdmissibleRun(env, w, steps) && Run(env, w, steps).dao.lots == w.dao.lots {
      ClaimAtStart(env, w, id);
      StartsWithoutCoins(env, w, id);
      RunNoCoins(env, w, steps, id);
      NoTurnout(Run(env, w, steps), id);
    }
  }

  /**
   For a proposal submitted before the first grant: with a voting token in any
   user's hands some run makes its turnout exceed the snapshot; and while no
   other proposal can hand such tokens back, the turnout stays within it in
   every run without a grant if and only if no user holds one.
   */
  lemma CoinTurnoutFitsExactly(env: Env, w: World, m: MsgSubmitProposal)
    requires Good(env, w) && ValidEnv(env) && UsersHaveAddresses(env) && w.dao.lots == map[]
    requires Admissible(env, w, SubmitProposal(m)) && Submit(env, w, m).Ok?
    ensures
      var w0, id := Next(env, w, SubmitProposal(m)), w.dao.nextId;
      && (SomeUserHolds(w0) ==> !(forall steps :: TurnoutFits(env, w0, steps, id)))
      && (NothingOwed(env, w0, id) ==>
            (!SomeUserHolds(w0) <==> forall steps :: TurnoutFits(env, w0, steps, id)))
  {
    hide Good, Next, SomeUserHolds, NothingOwed, TurnoutFits, JustSubmitted;
    var w0, id := Next(env, w, SubmitProposal(m)), w.dao.nextId;
    SubmissionIsNew(env, w, m);
    if SomeUserHolds(w0) {
      HolderBreaksSnapshot(env, w0, id);
    } else if NothingOwed(env, w0, id) {
      forall steps ensures TurnoutFits(env, w0, steps, id) {
        FitsWithoutHolder(env, w0, steps, id);
      }
    }
  }
}
