/** Import and export of the registry (x/dnsblockchain/keeper/genesis.go). */
module RegistryGenesis {
  import opened Bank
  import opened Names
  import opened Registry
  import opened Walks

  datatype GenesisState = GenesisState(
    fee: Coins,
    domainList: seq<TextDomain>,
    domainCount: nat,
    permittedTlds: seq<string>)

  const EMPTY_REGISTRY := RegistryState(map[], 0, map[], map[], {})

  // ---------- import ----------

  /** One step of the import loop: the domain by id, and its normalised name unless that is empty. */
  function LoadDomain(r: RegistryState, d: TextDomain): RegistryState {
    var n := NormalizeName(d.name);
    r.(domains := r.domains[d.id := d], names := if n == "" then r.names else r.names[n := d.id])
  }

  function LoadDomains(r: RegistryState, list: seq<TextDomain>): RegistryState {
    if list == [] then r
    else LoadDomain(LoadDomains(r, list[..|list| - 1]), list[|list| - 1])
  }

  function LoadedTlds(list: seq<string>): set<string> {
    set t <- list | NormalizeName(t) != "" :: NormalizeName(t)
  }

  function Init(g: GenesisState): RegistryState {
    LoadDomains(EMPTY_REGISTRY, g.domainList).(
      fee := g.fee, nextId := g.domainCount, tlds := LoadedTlds(g.permittedTlds))
  }

  // ---------- validation ----------

  ghost predicate Distinct<T>(list: seq<T>) {
    forall i, j :: 0 <= i < j < |list| ==> list[i] != list[j]
  }

  /** Ids are pairwise different and below the count. */
  ghost predicate ValidDomainList(list: seq<TextDomain>, count: nat) {
    && (forall i, j :: 0 <= i < j < |list| ==> list[i].id != list[j].id)
    && (forall i :: 0 <= i < |list| ==> list[i].id < count)
  }

  /** GenesisState.Validate */
  ghost predicate ValidGenesis(g: GenesisState) {
    && ValidDomainList(g.domainList, g.domainCount)
    && Distinct(g.permittedTlds)
    && ValidCoins(g.fee)
  }

  /** What Validate does not check: names in normal form, and no name twice unless it is empty. */
  ghost predicate ValidNames(list: seq<TextDomain>) {
    && (forall i :: 0 <= i < |list| ==> StoredName(list[i].name))
    && (forall i, j :: 0 <= i < j < |list| ==> list[i].name == "" || list[i].name != list[j].name)
  }

  ghost predicate WellFormedGenesis(g: GenesisState) {
    ValidGenesis(g) && ValidNames(g.domainList)
  }

  // ---------- export ----------

  /** What ExportGenesis may return: domains by ascending id, TLDs in the order of their store. */
  ghost predicate IsExport(r: RegistryState, g: GenesisState) {
    && g.fee == r.fee && g.domainCount == r.nextId
    && IsDomainList(r.domains, g.domainList)
    && Distinct(g.permittedTlds) && (set t <- g.permittedTlds) == r.tlds
  }

  ghost predicate IsDomainList(domains: map<nat, TextDomain>, list: seq<TextDomain>) {
    var ids := Ascending(domains.Keys);
    |list| == |ids| && forall i :: 0 <= i < |ids| ==> list[i] == domains[ids[i]]
  }

  // ---------- what an import contains ----------

  ghost predicate HasId(list: seq<TextDomain>, id: nat) {
    exists i :: 0 <= i < |list| && list[i].id == id
  }

  ghost predicate HasName(list: seq<TextDomain>, n: string) {
    exists i :: 0 <= i < |list| && list[i].name == n
  }

  /** The id map holds exactly the domains of the list, each under its id. */
  ghost predicate HoldsIds(domains: map<nat, TextDomain>, list: seq<TextDomain>) {
    && (forall i :: 0 <= i < |list| ==> list[i].id in domains && domains[list[i].id] == list[i])
    && (forall id <- domains :: HasId(list, id))
  }

  /** The name index holds exactly the names of the list, each with its id. */
  ghost predicate HoldsNames(names: map<string, nat>, list: seq<TextDomain>) {
    && (forall i :: 0 <= i < |list| && list[i].name != "" ==>
          list[i].name in names && names[list[i].name] == list[i].id)
    && (forall n <- names :: n != "" && HasName(list, n))
  }

  ghost predicate Holds(r: RegistryState, list: seq<TextDomain>) {
    HoldsIds(r.domains, list) && HoldsNames(r.names, list)
  }

  lemma HoldsIdsStep(domains: map<nat, TextDomain>, list: seq<TextDomain>, d: TextDomain)
    requires forall i :: 0 <= i < |list| ==> list[i].id != d.id
    requires HoldsIds(domains, list)
    ensures HoldsIds(domains[d.id := d], list + [d])
  {
    var all := list + [d];
    forall id | id in domains[d.id := d] ensures HasId(all, id) {
      if id == d.id {
        assert all[|list|].id == id;
      } else {
        var i :| 0 <= i < |list| && list[i].id == id;
        assert all[i].id == id;
      }
    }
  }

  lemma HoldsNamesStep(names: map<string, nat>, list: seq<TextDomain>, d: TextDomain)
    requires forall i :: 0 <= i < |list| ==> list[i].name == "" || list[i].name != d.name
    requires HoldsNames(names, list)
    ensures HoldsNames(if d.name == "" then names else names[d.name := d.id], list + [d])
  {
    var names', all := if d.name == "" then names else names[d.name := d.id], list + [d];
    forall n | n in names' ensures n != "" && HasName(all, n) {
      if n == d.name {
        assert all[|list|].name == n;
      } else {
        var i :| 0 <= i < |list| && list[i].name == n;
        assert all[i].name == n;
      }
    }
  }

  /** A list determines the stores that hold it. */
  lemma HoldsUnique(r: RegistryState, r': RegistryState, list: seq<TextDomain>)
    requires Holds(r, list) && Holds(r', list)
    ensures r.domains == r'.domains && r.names == r'.names
  {
    forall id | id in r.domains ensures id in r'.domains && r.domains[id] == r'.domains[id] {
      var i :| 0 <= i < |list| && list[i].id == id;
    }
    forall id | id in r'.domains ensures id in r.domains {
      var i :| 0 <= i < |list| && list[i].id == id;
    }
    forall n | n in r.names ensures n in r'.names && r.names[n] == r'.names[n] {
      var i :| 0 <= i < |list| && list[i].name == n;
    }
    forall n | n in r'.names ensures n in r.names {
      var i :| 0 <= i < |list| && list[i].name == n;
    }
  }

  lemma {:induction false} LoadHoldsIds(list: seq<TextDomain>, count: nat)
    requires ValidDomainList(list, count)
    ensures HoldsIds(LoadDomains(EMPTY_REGISTRY, list).domains, list)
  {
    if list != [] {
      var front, d := list[..|list| - 1], list[|list| - 1];
      assert list == front + [d];
      assert forall i :: 0 <= i < |front| ==> front[i] == list[i];
      LoadHoldsIds(front, count);
      HoldsIdsStep(LoadDomains(EMPTY_REGISTRY, front).domains, front, d);
    }
  }

  lemma {:induction false} LoadHoldsNames(list: seq<TextDomain>)
    requires ValidNames(list)
    ensures HoldsNames(LoadDomains(EMPTY_REGISTRY, list).names, list)
  {
    if list != [] {
      var front, d := list[..|list| - 1], list[|list| - 1];
      assert list == front + [d];
      assert ValidNames(front) by {
        hide NormalizeName;
        assert forall i :: 0 <= i < |front| ==> front[i] == list[i];
      }
      LoadHoldsNames(front);
      assert d == list[|front|] && NormalizeName(d.name) == d.name;
      HoldsNamesStep(LoadDomains(EMPTY_REGISTRY, front).names, front, d);
    }
  }

  lemma LoadHolds(list: seq<TextDomain>, count: nat)
    requires ValidDomainList(list, count) && ValidNames(list)
    ensures Holds(LoadDomains(EMPTY_REGISTRY, list), list)
  {
    hide ValidDomainList, ValidNames, LoadDomains;
    LoadHoldsIds(list, count);
    LoadHoldsNames(list);
  }

  lemma StoredTldsLoad(list: seq<string>)
    ensures forall t <- LoadedTlds(list) :: StoredTld(t)
    ensures (forall t <- list :: StoredTld(t)) ==> LoadedTlds(list) == (set t <- list)
  {
    forall t | t in list ensures NormalizeName(NormalizeName(t)) == NormalizeName(t) {
      NormalizeNameTwice(t);
    }
  }

  /** A well-formed genesis starts a run in a state with a correct index. */
  lemma InitIsOk(g: GenesisState)
    requires WellFormedGenesis(g)
    ensures RegistryOk(Init(g))
  {
    hide NormalizeName;
    LoadHolds(g.domainList, g.domainCount);
    StoredTldsLoad(g.permittedTlds);
    var r, list := Init(g), g.domainList;
    forall id | id in r.domains
      ensures r.domains[id].id == id && id < r.nextId && StoredName(r.domains[id].name)
      ensures r.domains[id].name != "" ==> r.domains[id].name in r.names && r.names[r.domains[id].name] == id
    {
      var i :| 0 <= i < |list| && list[i].id == id;
    }
    forall n | n in r.names
      ensures n != "" && r.names[n] in r.domains && r.domains[r.names[n]].name == n
    {
      var i :| 0 <= i < |list| && list[i].name == n;
    }
  }

  /**
   Validate lets any names through. Of the genesis states that it accepts,
   exactly those whose names are in normal form and not repeated start the chain
   with a name index that agrees with the domains.
   */
  lemma GenesisNeedsValidNames(g: GenesisState)
    requires ValidGenesis(g)
    ensures RegistryOk(Init(g)) <==> ValidNames(g.domainList)
  {
    hide NormalizeName;
    var r, list := Init(g), g.domainList;
    if ValidNames(list) {
      InitIsOk(g);
    }
    if RegistryOk(r) {
      LoadHoldsIds(list, g.domainCount);
      ExportNames(r, list);
      forall i | 0 <= i < |list| ensures StoredName(list[i].name) {
        assert list[i].id in r.domains;
      }
    }
  }

  /** Such a genesis: two domains of one name, of which only the second can be found. */
  lemma RepeatedNameBreaksIndex(first: TextDomain, second: TextDomain)
    requires first.id == 0 && second.id == 1 && first.name == second.name == "a.b"
    ensures
      var g := GenesisState(map[], [first, second], 2, []);
      ValidGenesis(g) && !RegistryOk(Init(g))
  {
    var g := GenesisState(map[], [first, second], 2, []);
    assert g.domainList[0].name == g.domainList[1].name;
    GenesisNeedsValidNames(g);
  }

  // ---------- round trip ----------

  /** An export lists the domains: one entry for each, under its own id. */
  lemma ExportIds(domains: map<nat, TextDomain>, list: seq<TextDomain>)
    requires IsDomainList(domains, list) && forall id <- domains :: domains[id].id == id
    ensures HoldsIds(domains, list)
    ensures forall i, j :: 0 <= i < j < |list| ==> list[i].id != list[j].id
  {
    var ids := Ascending(domains.Keys);
    AscendingLaw(domains.Keys);
    assert forall i :: 0 <= i < |ids| ==> ids[i] in ids;
    assert forall i :: 0 <= i < |list| ==> list[i].id == ids[i];
    forall id | id in domains ensures HasId(list, id) {
      assert id in ids;
      var i :| 0 <= i < |ids| && ids[i] == id;
      assert list[i].id == id;
    }
  }

  lemma ExportHolds(r: RegistryState, list: seq<TextDomain>)
    requires RegistryOk(r) && HoldsIds(r.domains, list)
    ensures HoldsNames(r.names, list)
  {
    hide NormalizeName;
    forall n | n in r.names ensures n != "" && HasName(list, n) {
      assert HasId(list, r.names[n]);
      var i :| 0 <= i < |list| && list[i].id == r.names[n];
      assert list[i].name == n;
    }
  }

  lemma ExportNames(r: RegistryState, list: seq<TextDomain>)
    requires RegistryOk(r) && HoldsIds(r.domains, list)
    requires forall i, j :: 0 <= i < j < |list| ==> list[i].id != list[j].id
    ensures ValidNames(list)
  {
    hide NormalizeName;
    forall i, j | 0 <= i < j < |list| ensures list[i].name == "" || list[i].name != list[j].name {
      assert list[i].name != "" ==> r.names[list[i].name] == list[i].id;
      assert list[j].name != "" ==> r.names[list[j].name] == list[j].id;
    }
  }

  /**
   For every state with a correct index, what ExportGenesis returns passes
   Validate and imports back to the very same stores; the name index, which is
   not exported, is rebuilt from the domains.
   */
  lemma GenesisRoundTrip(r: RegistryState, g: GenesisState)
    requires RegistryOk(r) && IsExport(r, g)
    ensures WellFormedGenesis(g) && Init(g) == r
  {
    hide NormalizeName, HoldsNames, IsDomainList;
    ExportIds(r.domains, g.domainList);
    ExportHolds(r, g.domainList);
    ExportNames(r, g.domainList);
    LoadHolds(g.domainList, g.domainCount);
    HoldsUnique(r, LoadDomains(EMPTY_REGISTRY, g.domainList), g.domainList);
    StoredTldsLoad(g.permittedTlds);
    assert forall t <- g.permittedTlds :: t in r.tlds;
  }

  /** The other way round: a well-formed genesis whose domains are in id order exports unchanged. */
  lemma ImportExport(g: GenesisState, g': GenesisState)
    requires WellFormedGenesis(g) && IsExport(Init(g), g')
    requires forall i, j :: 0 <= i < j < |g.domainList| ==> g.domainList[i].id < g.domainList[j].id
    ensures g'.domainList == g.domainList && g'.domainCount == g.domainCount && g'.fee == g.fee
  {
    hide NormalizeName, HoldsNames;
    LoadHolds(g.domainList, g.domainCount);
    SortedListIsExport(LoadDomains(EMPTY_REGISTRY, g.domainList).domains, g.domainList, g'.domainList);
  }

  lemma SortedListIsExport(domains: map<nat, TextDomain>, list: seq<TextDomain>, list': seq<TextDomain>)
    requires HoldsIds(domains, list) && IsDomainList(domains, list')
    requires forall i, j :: 0 <= i < j < |list| ==> list[i].id < list[j].id
    ensures list' == list
  {
    var ids, own := Ascending(domains.Keys), seq(|list|, i requires 0 <= i < |list| => list[i].id);
    forall id | id in ids ensures id in own {
      var i :| 0 <= i < |list| && list[i].id == id;
      assert own[i] == id;
    }
    AscendingLaw(domains.Keys);
    AscendingUnique(own, ids);
  }
}
