/**
 Voting power from one state of a run to a later one, as long as no grant of the
 voting token is executed in between.
 */
module ChainPower {
  import opened GoInts
  import opened Bank
  import opened Environment
  import opened DaoTypes
  import opened Dao
  import opened DaoInvariant
  import opened DaoVoting
  import opened Chain
  import Registry
  import DaoSettlement

  /** What a vote cast in w would weigh. */
  ghost function Power(w: World, voter: Account): int {
    VoterPower(w.dao, w.bank, voter, w.height)
  }

  lemma {:induction false} RunHeight(env: Env, w: World, steps: seq<Step>)
    requires Good(env, w) && ValidEnv(env) && AdmissibleRun(env, w, steps) && w.height < TWO_64
    ensures Run(env, w, steps).height < TWO_64
    decreases |steps|
  {
    hide Good, Next;
    if steps != [] {
      StepGood(env, w, steps[0]);
      RunHeight(env, Next(env, w, steps[0]), steps[1..]);
    }
  }

  lemma StepGood(env: Env, w: World, step: Step)
    requires Good(env, w) && ValidEnv(env) && Admissible(env, w, step)
    ensures Good(env, Next(env, w, step)) && Next(env, w, step).height <= w.height + 1
    ensures w.height < TWO_64 ==> Next(env, w, step).height < TWO_64
  {
    hide Good, WorldOk;
    NextOk(env, w, step);
  }

  // ---------- once lots exist ----------

  /** In a run without a grant of the voting token nobody's power grows. */
  lemma PowerFallsOverRun(env: Env, w: World, steps: seq<Step>, voter: Account)
    requires Good(env, w) && ValidEnv(env) && AdmissibleRun(env, w, steps) && w.height < TWO_64
    requires w.dao.params.votingPowerDecayDurationBlocks < TWO_63
    requires w.dao.lots != map[] && Run(env, w, steps).dao.lots == w.dao.lots
    ensures Power(Run(env, w, steps), voter) <= Power(w, voter)
  {
    hide Run, AdmissibleRun, VoterPower, LotsOk, ProposalsOk, VotesOk, TalliesStored, ActiveDistinct;
    var w' := Run(env, w, steps);
    RunKeepsOk(env, w, steps);
    RunHeight(env, w, steps);
    SameLots(w.dao, w.bank, w'.dao, w'.bank, voter, w'.height);
    PowerNonIncreasing(env, w.dao, w.bank, voter, w.height, w'.height);
  }

  /** Once lots exist they decide alone. */
  lemma SameLots(s: DaoState, b: BankState, s': DaoState, b': BankState, voter: Account, height: nat)
    requires s.lots == s'.lots != map[] && s.params == s'.params
    ensures VoterPower(s', b', voter, height) == VoterPower(s, b, voter, height)
  {
    assert LotPowers(s', voter, height) == LotPowers(s, voter, height);
  }

  /** Whoever is granted nothing for D blocks has no power left, whatever is granted to others. */
  lemma PowerRunsOutOverRun(env: Env, w: World, steps: seq<Step>, voter: Account)
    requires Good(env, w) && ValidEnv(env) && AdmissibleRun(env, w, steps) && w.height < TWO_64
    requires DecayInRange(w.dao.params) && w.dao.lots != map[]
    requires Run(env, w, steps).height >= w.height + w.dao.params.votingPowerDecayDurationBlocks
    requires forall k <- Run(env, w, steps).dao.lots :: k.holder == voter ==> k in w.dao.lots
    ensures Power(Run(env, w, steps), voter) == 0
  {
    hide Run, AdmissibleRun;
    var w' := Run(env, w, steps);
    RunKeepsOk(env, w, steps);
    RunHeight(env, w, steps);
    LotVotingStaysOn(w.dao, w'.dao);
    forall k | k in w'.dao.lots && k.holder == voter
      ensures w'.height - w'.dao.lots[k].grantHeight >= w'.dao.params.votingPowerDecayDurationBlocks
    {
      assert LotOk(env, w.dao, k, w.height);
    }
    PowerRunsOut(env, w'.dao, w'.bank, voter, w'.height);
  }

  // ---------- before the first one ----------

  /** Until the first grant a transfer of n voting tokens raises the recipient's power by n. */
  lemma PowerGrowsByTransfer(env: Env, w: World, from: Account, to: Account, n: int)
    requires Good(env, w) && w.dao.lots == map[] && from.User? && to.User? && from != to
    requires 0 < n <= Balance(w.bank, from, w.dao.params.votingTokenDenom)
    ensures
      var step := BankSend(from, to, map[w.dao.params.votingTokenDenom := n]);
      && Admissible(env, w, step) && Next(env, w, step).dao == w.dao
      && Power(Next(env, w, step), to) == Power(w, to) + n
  {
    hide Good;
    var d := w.dao.params.votingTokenDenom;
    SendBalance(w.bank, from, to, map[d := n], to, d);
  }

  /** A run in which no grant of the voting token is executed. */
  ghost predicate GrantFreeRun(env: Env, w: World, steps: seq<Step>) {
    Good(env, w) && AdmissibleRun(env, w, steps) && Run(env, w, steps).dao.lots == w.dao.lots
  }

  ghost predicate NeverGains(env: Env, w: World, steps: seq<Step>) {
    GrantFreeRun(env, w, steps) ==> forall v :: Power(Run(env, w, steps), v) <= Power(w, v)
  }

  /**
   Hence the condition is exact: with the stores of w, whoever holds the coins,
   power cannot grow in any run without a grant if and only if there is a lot.
   */
  lemma PowerFallsExactly(env: Env, w: World)
    requires Good(env, w) && ValidEnv(env) && w.height < TWO_64
    requires w.dao.params.votingPowerDecayDurationBlocks < TWO_63
    ensures w.dao.lots != map[] <==> forall b, steps :: NeverGains(env, w.(bank := b), steps)
  {
    hide Good, Run, AdmissibleRun, Power;
    if w.dao.lots != map[] {
      forall b, steps | GrantFreeRun(env, w.(bank := b), steps) ensures NeverGains(env, w.(bank := b), steps) {
        forall v ensures Power(Run(env, w.(bank := b), steps), v) <= Power(w.(bank := b), v) {
          PowerFallsOverRun(env, w.(bank := b), steps, v);
        }
      }
    } else {
      var b, steps := SomeoneGains(env, w);
      assert !NeverGains(env, w.(bank := b), steps);
    }
  }

  lemma SomeoneGains(env: Env, w: World) returns (b: BankState, steps: seq<Step>)
    requires Good(env, w) && w.dao.lots == map[]
    ensures !NeverGains(env, w.(bank := b), steps)
  {
    hide Good, Power, Next, Run, AdmissibleRun, Admissible;
    var d := w.dao.params.votingTokenDenom;
    b := MintTo(w.bank, User(0), map[d := 1]);
    var step, w0 := BankSend(User(0), User(1), map[d := 1]), w.(bank := b);
    steps := [step];
    RicherIsGood(env, w, map[d := 1]);
    MintBalance(w.bank, User(0), map[d := 1], User(0), d);
    assert Balance(w.bank, User(0), d) >= 0 by { BalanceNonNegative(env, w, User(0), d); }
    PowerGrowsByTransfer(env, w0, User(0), User(1), 1);
    FirstStep(env, w0, step, []);
    NoSteps(env, Next(env, w0, step));
    assert steps == [step] + [];
  }

  lemma BalanceNonNegative(env: Env, w: World, a: Account, d: Denom)
    requires Good(env, w)
    ensures Balance(w.bank, a, d) >= 0
  {
  }

  lemma RicherIsGood(env: Env, w: World, amount: Coins)
    requires Good(env, w) && ValidCoins(amount)
    ensures Good(env, w.(bank := MintTo(w.bank, User(0), amount)))
  {
    hide ProposalsOk, ActiveDistinct, VotesOk, TalliesStored, LotsOk, Registry.RegistryOk, Sound, Escrow;
    hide DaoSettlement.WonTldsPermitted, NoneOverdue;
    var w' := w.(bank := MintTo(w.bank, User(0), amount));
    MintKeepsSound(w.bank, User(0), amount);
    BankOnly(w, w');
    forall d ensures Balance(w'.bank, DAO, d) >= Escrow(w'.dao, d) {
      MintBalance(w.bank, User(0), amount, DAO, d);
      assert Balance(w.bank, DAO, d) >= Escrow(w.dao, d);
    }
  }
}
