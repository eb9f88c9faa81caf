/**
 The keepers of both modules over one bank, as the chain drives them. Each step
 of the objects is the step of Chain, so the results about runs are about them.
 */
module App {
  import opened Bank
  import opened Environment
  import opened Registry
  import opened RegistryGenesis
  import opened DaoTypes
  import opened Chain
  import Dao
  import DnsModule = RegistryKeeper
  import DaoModule = DaoKeeper

  class ChainApp {
    const env: Env
    const bank: BankKeeper
    const dns: DnsModule.Keeper
    const dao: DaoModule.Keeper
    var height: nat
    var time: nat

    ghost predicate Valid()
      reads this, dao
    {
      && dao.Valid() && dao.env == env && dns.env == env
      && dao.bankKeeper == bank && dao.dnsKeeper == dns && dns.bankKeeper == bank
    }

    ghost function State(): Dao.World
      reads this, bank, dns, dao
    {
      Dao.World(height, time, dao.State(), bank.state, dns.State())
    }

    constructor (env: Env, params: DaoParams, balances: BankState, genesis: GenesisState, height: nat, time: nat)
      ensures Valid() && this.env == env && fresh(bank) && fresh(dns) && fresh(dao)
      ensures State() == Dao.World(height, time, DaoState(GenesisParams(params), 0, map[], map[], map[]), balances, Init(genesis))
    {
      var b := new BankKeeper(balances);
      var n := new DnsModule.Keeper(env, b);
      n.InitGenesis(genesis);
      var d := new DaoModule.Keeper(env, params, b, n);
      this.env, bank, dns, dao := env, b, n, d;
      this.height, this.time := height, time;
    }

    method Apply(step: Step)
      requires Valid()
      modifies this`height, this`time, bank, dns, dao
      ensures Valid() && State() == Next(env, old(State()), step)
    {
      hide Dao.Submit, Dao.CastVote, Dao.EndBlocker, Handle, Send;
      match step
      case SubmitProposal(m) =>
        var r := dao.Deliver(height, time, m);
      case CastAVote(m) =>
        var err := dao.Vote(height, time, m);
      case BankSend(from, to, amount) =>
        if ValidCoins(amount) {
          var err := bank.SendCoinsToAccount(from, to, amount);
        }
      case RegistryTx(m) =>
        var err := dns.Deliver(time, m);
      case EndBlock(nextTime) =>
        dao.EndBlocker(height, time);
        height := height + 1;
        time := nextTime;
    }

    method Play(steps: seq<Step>)
      requires Valid()
      modifies this`height, this`time, bank, dns, dao
      ensures Valid() && State() == Run(env, old(State()), steps)
    {
      hide Next;
      for i := 0 to |steps|
        invariant Valid() && Run(env, old(State()), steps) == Run(env, State(), steps[i..])
      {
        assert steps[i..][0] == steps[i] && steps[i..][1..] == steps[i + 1..];
        Apply(steps[i]);
      }
    }
  }

  /** A well-formed genesis over a sound bank starts every run in an initial state. */
  lemma GenesisIsInitial(env: Env, params: DaoParams, balances: BankState, genesis: GenesisState, height: nat, time: nat)
    requires Sound(balances) && WellFormedGenesis(genesis)
    ensures
      Initial(env, Dao.World(height, time, DaoState(GenesisParams(params), 0, map[], map[], map[]), balances, Init(genesis)))
  {
    hide Init, RegistryOk, Sound;
    InitIsOk(genesis);
  }
}
