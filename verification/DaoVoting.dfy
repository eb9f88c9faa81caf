/** Voting power and acceptance at the level of the stores. */
module DaoVoting {
  import opened GoInts
  import opened MapTotals
  import opened Bank
  import opened Environment
  import opened DaoTypes
  import opened DaoDecision
  import opened VotingPower
  import opened Dao
  import opened DaoInvariant

  // ---------- power ----------

  lemma LotPowerNonNegative(lot: Lot, decay: uint64, height: nat)
    requires lot.amount > 0
    ensures LotPower(lot, decay, height) >= 0
  {
  }

  lemma PowerNonNegative(env: Env, s: DaoState, b: BankState, voter: Account, height: nat)
    requires ValidParams(s.params) && LotsOk(env, s, height) && Sound(b)
    ensures VoterPower(s, b, voter, height) >= 0
  {
    hide LotPower;
    var powers := LotPowers(s, voter, height);
    forall k | k in powers ensures powers[k] >= 0 {
      assert LotOk(env, s, k, height);
      LotPowerNonNegative(s.lots[k], s.params.votingPowerDecayDurationBlocks, height);
    }
    TotalNonNegative(powers);
    assert Balance(b, voter, s.params.votingTokenDenom) >= 0;
  }

  /** The decay duration that the code handles (see DecayNeedsInt64). */
  ghost predicate DecayInRange(p: DaoParams) {
    0 < p.votingPowerDecayDurationBlocks < TWO_63
  }

  /** Between grants a voter's power never grows with the height. */
  lemma PowerNonIncreasing(env: Env, s: DaoState, b: BankState, voter: Account, height: nat, height': nat)
    requires ValidParams(s.params) && s.params.votingPowerDecayDurationBlocks < TWO_63 && LotsOk(env, s, height)
    requires height <= height' < TWO_64
    ensures VoterPower(s, b, voter, height') <= VoterPower(s, b, voter, height)
  {
    hide LotPower;
    var decay := s.params.votingPowerDecayDurationBlocks;
    var p, p' := LotPowers(s, voter, height), LotPowers(s, voter, height');
    forall k | k in p' ensures p'[k] <= p[k] {
      assert LotOk(env, s, k, height);
      LotFalls(s.lots[k], decay, height, height');
    }
    TotalMonotone(p', p);
  }

  lemma LotFalls(lot: Lot, decay: uint64, height: nat, height': nat)
    requires lot.amount > 0 && decay < TWO_63 && lot.grantHeight <= height <= height' < TWO_64
    ensures LotPower(lot, decay, height') <= LotPower(lot, decay, height)
  {
    hide LotPower;
    if decay == 0 {
      NoDecay(lot, height);
      NoDecay(lot, height');
    } else {
      LotPowerIsDecayed(lot, decay, height);
      LotPowerIsDecayed(lot, decay, height');
      DecayMonotone(lot.amount, height' - lot.grantHeight, lot.amount, height - lot.grantHeight, decay);
    }
  }

  lemma NoDecay(lot: Lot, height: nat)
    ensures LotPower(lot, 0, height) == lot.amount
  {
  }

  /** Once lots exist, a voter whose lots are all D or more blocks old has no power. */
  lemma PowerRunsOut(env: Env, s: DaoState, b: BankState, voter: Account, height: nat)
    requires ValidParams(s.params) && DecayInRange(s.params) && LotsOk(env, s, height)
    requires s.lots != map[] && height < TWO_64
    requires forall k <- s.lots :: k.holder == voter ==>
      height - s.lots[k].grantHeight >= s.params.votingPowerDecayDurationBlocks
    ensures VoterPower(s, b, voter, height) == 0
  {
    hide LotPower;
    var decay := s.params.votingPowerDecayDurationBlocks;
    var powers := LotPowers(s, voter, height);
    forall k | k in powers ensures powers[k] == 0 {
      assert LotOk(env, s, k, height);
      LotPowerIsDecayed(s.lots[k], decay, height);
    }
    TotalOfZeros(powers);
  }

  /** The first grant in the voting token switches lot-based voting on for good. */
  lemma LotVotingStaysOn(s: DaoState, s': DaoState)
    requires DaoHistory(s, s') && s.lots != map[]
    ensures s'.lots != map[]
  {
    var k :| k in s.lots;
    assert k in s'.lots;
  }

  // ---------- acceptance ----------

  lemma TallyNonNegative(env: Env, s: DaoState, id: nat)
    requires VotesOk(env, s)
    ensures
      var t := TallyOf(s.votes, id);
      t.yes >= 0 && t.no >= 0 && t.abstain >= 0 && t.voted >= 0
  {
    forall k | k in s.votes ensures s.votes[k].power > 0 { assert VoteOk(env, s, k); }
    TotalNonNegative(Bucket(s.votes, id, OPTION_YES));
    TotalNonNegative(Bucket(s.votes, id, OPTION_NO));
    TotalNonNegative(Bucket(s.votes, id, OPTION_ABSTAIN));
    TotalNonNegative(Turnout(s.votes, id));
  }

  /** A further vote that is not a NO never turns acceptance into rejection. */
  lemma FurtherVoteKeepsWin(env: Env, s: DaoState, id: nat, k: VoteKey, v: Vote)
    requires ValidParams(s.params) && VotesOk(env, s) && id in s.proposals && Wins(s, id)
    requires k !in s.votes && k.proposal == id && v.power >= 0 && v.option != OPTION_NO
    ensures Wins(s.(votes := s.votes[k := v]), id)
  {
    hide TallyOf, Accepts, VotesOk;
    var t, snapshot := TallyOf(s.votes, id), s.proposals[id].totalVotingPowerAtSnapshot;
    TallyWithVote(s.votes, id, k, v);
    TallyNonNegative(env, s, id);
    if v.option == OPTION_YES {
      AcceptsWithYes(s.params, snapshot, t.yes, t.no, t.voted, v.power);
    } else {
      AcceptsWithAbstain(s.params, snapshot, t.yes, t.no, t.voted,
                         if v.option == OPTION_UNSPECIFIED then 0 else v.power);
    }
  }

  /** Nor does a NO that becomes a YES. */
  lemma TurnedVoteKeepsWin(env: Env, s: DaoState, id: nat, k: VoteKey)
    requires ValidParams(s.params) && VotesOk(env, s) && id in s.proposals && Wins(s, id)
    requires k in s.votes && k.proposal == id && s.votes[k].option == OPTION_NO
    ensures Wins(s.(votes := s.votes[k := s.votes[k].(option := OPTION_YES)]), id)
  {
    hide TallyOf, Accepts, Bucket, Turnout;
    var v, rest, snapshot := s.votes[k], s.votes - {k}, s.proposals[id].totalVotingPowerAtSnapshot;
    assert s.votes == rest[k := v];
    assert s.votes[k := v.(option := OPTION_YES)] == rest[k := v.(option := OPTION_YES)];
    TallyWithVote(rest, id, k, v);
    TallyWithVote(rest, id, k, v.(option := OPTION_YES));
    var s0 := s.(votes := rest);
    assert VoteOk(env, s, k);
    forall j | j in s0.votes ensures VoteOk(env, s0, j) { assert VoteOk(env, s, j); }
    TallyNonNegative(env, s0, id);
    var t := TallyOf(s.votes, id);
    AcceptsWithTurnedNo(s.params, snapshot, t.yes, t.no, t.voted, v.power);
  }
}
