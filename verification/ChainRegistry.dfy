/**
 One domain through a whole run: its record stays as it is until its creator or
 its owner signs a message about it, and its name is taken until it is deleted.
 */
module ChainRegistry {
  import opened Bank
  import opened Environment
  import opened Names
  import opened Registry
  import opened RegistryTlds
  import opened DaoTypes
  import opened Dao
  import opened DaoInvariant
  import opened DaoSettlement
  import opened DaoOutcome
  import opened Chain

  /** The step is an accepted message about the domain, signed by one of these. */
  ghost predicate Touches(env: Env, w: World, step: Step, id: nat, signers: set<string>) {
    && step.RegistryTx? && Targets(step.msg, id) && Signer(step.msg) in signers
    && Handle(env, w.time, w.registry, w.bank, step.msg).Ok?
  }

  ghost predicate Untouched(env: Env, w: World, steps: seq<Step>, id: nat, signers: set<string>)
    decreases |steps|
  {
    steps == [] ||
    (!Touches(env, w, steps[0], id, signers) && Untouched(env, Next(env, w, steps[0]), steps[1..], id, signers))
  }

  /** The step is an accepted deletion of the domain; only its owner can sign one. */
  ghost predicate Deletes(env: Env, w: World, step: Step, id: nat) {
    && step.RegistryTx? && step.msg.DeleteDomain? && step.msg.id == id
    && Handle(env, w.time, w.registry, w.bank, step.msg).Ok?
  }

  ghost predicate NotDeleted(env: Env, w: World, steps: seq<Step>, id: nat)
    decreases |steps|
  {
    steps == [] || (!Deletes(env, w, steps[0], id) && NotDeleted(env, Next(env, w, steps[0]), steps[1..], id))
  }

  function Controllers(d: TextDomain): set<string> {
    {d.creator, d.owner}
  }

  // ---------- one step ----------

  lemma OthersUntouched(env: Env, now: nat, r: RegistryState, b: BankState, m: RegistryMsg, id: nat)
    requires RegistryOk(r) && Handle(env, now, r, b, m).Ok? && id in r.domains
    ensures
      var r' := Handle(env, now, r, b, m).value.0;
      && (!Targets(m, id) ==> id in r'.domains && r'.domains[id] == r.domains[id])
      && (Targets(m, id) ==> Signer(m) in Controllers(r.domains[id]))
      && (!(m.DeleteDomain? && m.id == id) ==> id in r'.domains && r'.domains[id].name == r.domains[id].name)
      && (m.DeleteDomain? && m.id == id ==> Signer(m) == r.domains[id].owner)
  {
    hide NormalizeName, SplitDots, ChargeFee, IsPermitted, ValidRecords;
  }

  /** No step but a registry message changes a domain. */
  lemma OtherStep(env: Env, w: World, step: Step)
    requires Good(env, w) && !step.RegistryTx?
    ensures Next(env, w, step).registry.domains == w.registry.domains
  {
    hide WorldOk, EndBlocker, VoterPower, HasActiveTwin, CheckTld, PayDeposit, ContentError, ValidContent;
    if step.EndBlock? { EndBlockerKeepsOk(env, w); }
  }

  lemma StepKeepsDomain(env: Env, w: World, step: Step, id: nat)
    requires Good(env, w) && id in w.registry.domains
    ensures
      var r, r' := w.registry, Next(env, w, step).registry;
      && (!Touches(env, w, step, id, Controllers(r.domains[id])) ==>
            id in r'.domains && r'.domains[id] == r.domains[id])
      && (!Deletes(env, w, step, id) ==> id in r'.domains && r'.domains[id].name == r.domains[id].name)
      && (Deletes(env, w, step, id) ==> Signer(step.msg) == r.domains[id].owner)
  {
    hide Handle, EndBlocker, Submit, CastVote;
    if !step.RegistryTx? {
      OtherStep(env, w, step);
    } else if Handle(env, w.time, w.registry, w.bank, step.msg).Ok? {
      assert RegistryOk(w.registry);
      OthersUntouched(env, w.time, w.registry, w.bank, step.msg, id);
    }
  }

  lemma NextGood(env: Env, w: World, step: Step)
    requires Good(env, w) && ValidEnv(env) && Admissible(env, w, step)
    ensures Good(env, Next(env, w, step))
  {
    hide Good, Next, Admissible;
    NextOk(env, w, step);
  }

  lemma IndexEntry(env: Env, w: World, id: nat)
    requires Good(env, w) && id in w.registry.domains && w.registry.domains[id].name != ""
    ensures
      var name := w.registry.domains[id].name;
      NormalizeName(name) == name && name in w.registry.names && w.registry.names[name] == id
  {
  }

  // ---------- every run ----------

  /**
   As long as neither its creator nor its owner signs an accepted message about
   a domain, its whole record and its index entry stay.
   */
  lemma {:induction false} RecordStays(env: Env, w: World, steps: seq<Step>, id: nat)
    requires Good(env, w) && ValidEnv(env) && AdmissibleRun(env, w, steps) && id in w.registry.domains
    requires Untouched(env, w, steps, id, Controllers(w.registry.domains[id]))
    ensures
      var d, r' := w.registry.domains[id], Run(env, w, steps).registry;
      && id in r'.domains && r'.domains[id] == d
      && (d.name != "" ==> d.name in r'.names && r'.names[d.name] == id)
    decreases |steps|
  {
    hide Good, Next, Admissible, Touches;
    if steps == [] {
      if w.registry.domains[id].name != "" { IndexEntry(env, w, id); }
    } else {
      StepKeepsDomain(env, w, steps[0], id);
      NextGood(env, w, steps[0]);
      RecordStays(env, Next(env, w, steps[0]), steps[1..], id);
    }
  }

  /**
   After a transfer the new owner alone decides: through every later run the
   record stays as the transfer left it until the new owner signs something.
   */
  lemma TransferLasts(env: Env, w: World, m: RegistryMsg, steps: seq<Step>)
    requires Good(env, w) && ValidEnv(env) && Admissible(env, w, RegistryTx(m))
    requires m.TransferDomain? && Transfer(env, w.registry, m).Ok?
    requires AdmissibleRun(env, Next(env, w, RegistryTx(m)), steps)
    requires Untouched(env, Next(env, w, RegistryTx(m)), steps, m.id, {m.newOwner})
    ensures
      var r' := Run(env, Next(env, w, RegistryTx(m)), steps).registry;
      && m.id in r'.domains
      && r'.domains[m.id] == w.registry.domains[m.id].(creator := m.newOwner, owner := m.newOwner)
  {
    hide Good, Run, AdmissibleRun, Untouched;
    var w1 := Next(env, w, RegistryTx(m));
    NextGood(env, w, RegistryTx(m));
    assert m.id in w1.registry.domains;
    assert Controllers(w1.registry.domains[m.id]) == {m.newOwner};
    RecordStays(env, w1, steps, m.id);
  }

  lemma {:induction false} NameStays(env: Env, w: World, steps: seq<Step>, id: nat)
    requires Good(env, w) && ValidEnv(env) && AdmissibleRun(env, w, steps)
    requires id in w.registry.domains && NotDeleted(env, w, steps, id)
    ensures
      var w' := Run(env, w, steps);
      && Good(env, w') && id in w'.registry.domains
      && w'.registry.domains[id].name == w.registry.domains[id].name
    decreases |steps|
  {
    hide Good, Next, Admissible, Deletes;
    if steps != [] {
      StepKeepsDomain(env, w, steps[0], id);
      NextGood(env, w, steps[0]);
      NameStays(env, Next(env, w, steps[0]), steps[1..], id);
    }
  }

  /**
   A name stays taken until the domain is deleted, whatever its expiration: in
   every state up to then no spelling of it can be registered, and every
   spelling finds the domain.
   */
  lemma NameStaysTaken(env: Env, w: World, steps: seq<Step>, id: nat, m: RegistryMsg)
    requires Good(env, w) && ValidEnv(env) && AdmissibleRun(env, w, steps)
    requires id in w.registry.domains && w.registry.domains[id].name != ""
    requires NotDeleted(env, w, steps, id)
    requires m.CreateDomain? && NormalizeName(m.name) == w.registry.domains[id].name
    ensures
      var w' := Run(env, w, steps);
      && Create(env, w'.time, w'.registry, w'.bank, m).Err?
      && id in w'.registry.domains
      && GetDomainByName(w'.registry, w'.time, m.name) ==
           Found(w'.registry.domains[id], w'.time >= w'.registry.domains[id].expiration)
  {
    hide Run, AdmissibleRun, NotDeleted, Good, NormalizeName, ChargeFee, SplitDots, IsPermitted, ValidRecords;
    var w' := Run(env, w, steps);
    NameStays(env, w, steps, id);
    IndexEntry(env, w', id);
    assert m.name != "" by { EmptyName(); }
  }

  lemma EmptyName()
    ensures NormalizeName("") == ""
  {
  }

  // ---------- top-level domains ----------

  lemma ProposedTldIsNormal(env: Env, w: World, id: nat)
    requires ProposalsOk(env, w.dao) && id in w.dao.proposals && w.dao.proposals[id].content.AddTld?
    ensures NormalizeTld(TldOf(w, id)) == TldOf(w, id)
  {
    assert ProposalOk(env, w.dao, id);
    NormalizersAgree(w.dao.proposals[id].content.tld);
  }

  lemma WonTldsAreNormal(env: Env, w: World, ids: set<nat>)
    requires ProposalsOk(env, w.dao)
    ensures NormalTlds(WonTlds(w, ids))
  {
    hide ProposalsOk, Wins, NormalizeTld, TldOf;
    forall t | t in WonTlds(w, ids) ensures NormalizeTld(t) == t {
      var id :| id in ids && id in w.dao.proposals && w.dao.proposals[id].content.AddTld? && TldOf(w, id) == t;
      ProposedTldIsNormal(env, w, id);
    }
  }

  lemma ProposalsAreOk(env: Env, w: World)
    requires WorldOk(env, w)
    ensures ProposalsOk(env, w.dao)
  {
  }

  lemma StepKeepsNormal(env: Env, w: World, step: Step)
    requires Good(env, w) && Admissible(env, w, step) && NormalTlds(w.registry.tlds)
    ensures NormalTlds(Next(env, w, step).registry.tlds)
  {
    hide WorldOk, EndBlocker, VoterPower, HasActiveTwin, CheckTld, PayDeposit, ContentError, ValidContent;
    hide WonTlds, Outcome, NormalizeTld, NormalizeName, TallyOf, Wins, WonTldsPermitted, NoneOverdue;
    if step.EndBlock? {
      EndBlockOutcome(env, w);
      assert ProposalsOk(env, w.dao) by { ProposalsAreOk(env, w); }
      WonTldsAreNormal(env, w, DueSet(w));
    }
  }

  lemma {:induction false} RunKeepsNormal(env: Env, w: World, steps: seq<Step>)
    requires Good(env, w) && ValidEnv(env) && AdmissibleRun(env, w, steps) && NormalTlds(w.registry.tlds)
    ensures NormalTlds(Run(env, w, steps).registry.tlds)
    decreases |steps|
  {
    hide Good, Next, Admissible, NormalTlds;
    if steps != [] {
      StepKeepsNormal(env, w, steps[0]);
      NextGood(env, w, steps[0]);
      RunKeepsNormal(env, Next(env, w, steps[0]), steps[1..]);
    }
  }

  /**
   From a genesis with normal labels: every domain registered in a run has a
   name label.tld, and its label is permitted as it stands exactly when no space
   surrounds it.
   */
  lemma RegisteredUnderPermitted(env: Env, w: World, steps: seq<Step>, id: nat, host: string, tld: string)
    requires Initial(env, w) && ValidEnv(env) && AdmissibleRun(env, w, steps) && NormalTlds(w.registry.tlds)
    requires id in Run(env, w, steps).registry.domains && id >= w.registry.nextId
    requires NameParts(Run(env, w, steps).registry.domains[id].name, host, tld)
    ensures
      var tlds := Run(env, w, steps).registry.tlds;
      NormalizeTld(tld) in tlds && (tld in tlds <==> Trimmed(tld, IsSpace))
  {
    hide Run, AdmissibleRun, Initial, Good;
    var r := Run(env, w, steps).registry;
    InitialIsGood(env, w);
    RegisteredNames(env, w, steps);
    RunKeepsNormal(env, w, steps);
    assert RegisteredName(r.tlds, r.domains[id].name);
    RegisteredNameTld(r.tlds, r.domains[id].name, host, tld);
  }
}
