/**
 The keeper and message server of x/dnsblockchain as an object: its stores are
 fields that the handlers update one after the other. A handler that fails may
 have charged the fee already; Deliver is the transaction that takes it back.
 */
module RegistryKeeper {
  import opened Wrappers
  import opened Bank
  import opened DomainTypes
  import opened Environment
  import opened Names
  import opened Registry
  import opened RegistryGenesis
  import opened Walks

  class Keeper {
    const env: Env
    const bankKeeper: BankKeeper
    var Params: Coins
    var DomainSeq: nat
    var Domains: map<nat, TextDomain>
    var DomainName: map<string, nat>
    var PermittedTLDs: set<string>

    ghost function State(): RegistryState
      reads this
    {
      RegistryState(Params, DomainSeq, Domains, DomainName, PermittedTLDs)
    }

    constructor (env: Env, bankKeeper: BankKeeper)
      ensures this.env == env && this.bankKeeper == bankKeeper
      ensures State() == EMPTY_REGISTRY
    {
      this.env, this.bankKeeper := env, bankKeeper;
      Params, DomainSeq, Domains, DomainName, PermittedTLDs := map[], 0, map[], map[], {};
    }

    // ---------- keeper.go ----------

    method IsTldPermitted(tld: string) returns (permitted: bool)
      ensures permitted == IsPermitted(State(), tld)
    {
      var normalized := NormalizeTld(tld);
      if normalized == "" {
        return false;
      }
      return normalized in PermittedTLDs;
    }

    method AddPermittedTld(tld: string) returns (err: Option<RegistryError>)
      modifies this`PermittedTLDs
      ensures
        match Registry.AddPermittedTld(old(State()), tld)
        case Ok(s) => err == None && State() == s
        case Err(e) => err == Some(e) && State() == old(State())
    {
      var normalized := NormalizeTld(tld);
      if IsReservedTld(normalized) {
        return Some(TldReserved);
      }
      if normalized == "" {
        return Some(RegistryError.InvalidTld);
      }
      if '.' in normalized {
        return Some(RegistryError.InvalidTld);
      }
      if |normalized| > 63 || |normalized| < 2 {
        return Some(RegistryError.InvalidTld);
      }
      if normalized in PermittedTLDs {
        return Some(RegistryError.InvalidTld);
      }
      PermittedTLDs := PermittedTLDs + {normalized};
      return None;
    }

    // ---------- msg_server_domain.go ----------

    method CheckAddresses(list: seq<string>) returns (ok: bool)
      ensures ok <==> forall ip <- list :: env.isIp(ip)
    {
      for k := 0 to |list|
        invariant forall j :: 0 <= j < k ==> env.isIp(list[j])
      {
        if !env.isIp(list[k]) {
          assert list[k] in list;
          return false;
        }
      }
      return true;
    }

    /** The loop over ns_records: every entry is there, is named, and lists only IP addresses. */
    method CheckRecords(list: seq<Option<TextRecord>>) returns (ok: bool)
      ensures ok == ValidRecords(env, list)
    {
      for i := 0 to |list|
        invariant forall j :: 0 <= j < i ==> ValidRecord(env, list[j])
      {
        if list[i].None? {
          return false;
        }
        if Trim(list[i].value.name, IsSpace) == "" {
          return false;
        }
        var v4 := CheckAddresses(list[i].value.ipv4);
        if !v4 {
          return false;
        }
        var v6 := CheckAddresses(list[i].value.ipv6);
        if !v6 {
          return false;
        }
      }
      return true;
    }

    method CollectFee(payer: Account) returns (err: Option<BankError>)
      modifies bankKeeper
      ensures
        match ChargeFee(old(bankKeeper.state), payer, Params)
        case Ok(b) => err == None && bankKeeper.state == b
        case Err(e) => err == Some(e)
      ensures bankKeeper.state == BankAfterFee(old(bankKeeper.state), payer, Params)
    {
      err := None;
      if !IsZero(Params) {
        err := bankKeeper.SendCoins(payer, DNS, Params);
        if err.Some? {
          return;
        }
        err := bankKeeper.BurnCoins(DNS, Params);
      }
    }

    method CreateDomain(now: nat, msg: RegistryMsg) returns (r: Result<nat, RegistryError>)
      requires msg.CreateDomain?
      modifies this, bankKeeper
      ensures
        match Create(env, now, old(State()), old(bankKeeper.state), msg)
        case Ok((s, b)) => r == Ok(old(DomainSeq)) && State() == s && bankKeeper.state == b
        case Err(e) =>
          && r == Err(e) && State() == old(State())
          && bankKeeper.state ==
               if e == InvalidAddress then old(bankKeeper.state)
               else BankAfterFee(old(bankKeeper.state), env.parseAddress(msg.creator).value, old(Params))
    {
      hide NormalizeName, SplitDots, IsReservedTld, ChargeFee, BankAfterFee;
      var creator := env.parseAddress(msg.creator);
      if creator.None? {
        return Err(InvalidAddress);
      }
      if env.parseAddress(msg.owner).None? {
        return Err(InvalidAddress);
      }
      var unpaid := CollectFee(creator.value);
      if unpaid.Some? {
        return Err(FeeNotPaid(unpaid.value));
      }
      var normalizedName := NormalizeName(msg.name);
      var parts := SplitDots(normalizedName);
      if |parts| != 2 {
        return Err(InvalidDomainName);
      }
      if parts[1] == "" {
        return Err(InvalidDomainName);
      }
      var permitted := IsTldPermitted(parts[1]);
      if !permitted {
        return Err(TldNotPermitted);
      }
      if normalizedName in DomainName {
        return Err(DuplicateDomainName);
      }
      if |msg.nsRecords| == 0 {
        return Err(InvalidRequest);
      }
      var valid := CheckRecords(msg.nsRecords);
      if !valid {
        return Err(InvalidRequest);
      }
      var nextID := DomainSeq;
      DomainSeq := NextId(DomainSeq);
      var domain := Domain(nextID, normalizedName, msg.owner, RecordsOf(msg.nsRecords),
                           msg.creator, env.oneYearAfter(now));
      Domains := Domains[nextID := domain];
      DomainName := DomainName[domain.name := domain.id];
      return Ok(nextID);
    }

    method UpdateDomain(msg: RegistryMsg) returns (err: Option<RegistryError>)
      requires msg.UpdateDomain?
      modifies this`Domains
      ensures
        match Update(env, old(State()), msg)
        case Ok(s) => err == None && State() == s
        case Err(e) => err == Some(e) && State() == old(State())
    {
      if env.parseAddress(msg.creator).None? {
        return Some(InvalidAddress);
      }
      if msg.id !in Domains {
        return Some(KeyNotFound);
      }
      var val := Domains[msg.id];
      var newOwner, newNsRecords, changed := val.owner, val.nsRecords, false;
      var isCreator, isOwner := msg.creator == val.creator, msg.creator == val.owner;
      if !isCreator && !isOwner {
        return Some(Unauthorized);
      }
      if isCreator {
        if msg.owner != "" && msg.owner != val.owner {
          if env.parseAddress(msg.owner).None? {
            return Some(InvalidAddress);
          }
          newOwner := msg.owner;
          changed := true;
        }
        if |msg.nsRecords| > 0 {
          var valid := CheckRecords(msg.nsRecords);
          if !valid {
            return Some(InvalidRequest);
          }
          newNsRecords := RecordsOf(msg.nsRecords);
          changed := true;
        }
      } else if isOwner {
        if msg.owner != "" && msg.owner != val.owner {
          return Some(Unauthorized);
        }
        if |msg.nsRecords| > 0 {
          var valid := CheckRecords(msg.nsRecords);
          if !valid {
            return Some(InvalidRequest);
          }
          newNsRecords := RecordsOf(msg.nsRecords);
          changed := true;
        }
      }
      if !changed {
        return Some(InvalidRequest);
      }
      Domains := Domains[msg.id := val.(id := msg.id, owner := newOwner, nsRecords := newNsRecords)];
      return None;
    }

    method DeleteDomain(msg: RegistryMsg) returns (err: Option<RegistryError>)
      requires msg.DeleteDomain?
      modifies this`Domains, this`DomainName
      ensures
        match Delete(env, old(State()), msg)
        case Ok(s) => err == None && State() == s
        case Err(e) => err == Some(e) && State() == old(State())
    {
      if env.parseAddress(msg.creator).None? {
        return Some(InvalidAddress);
      }
      if msg.id !in Domains {
        return Some(KeyNotFound);
      }
      var val := Domains[msg.id];
      if msg.creator != val.owner {
        return Some(Unauthorized);
      }
      DomainName := DomainName - {val.name};
      Domains := Domains - {msg.id};
      return None;
    }

    method HeartbeatDomain(now: nat, msg: RegistryMsg) returns (err: Option<RegistryError>)
      requires msg.HeartbeatDomain?
      modifies this`Domains
      ensures
        match Heartbeat(env, now, old(State()), msg)
        case Ok(s) => err == None && State() == s
        case Err(e) => err == Some(e) && State() == old(State())
    {
      if env.parseAddress(msg.creator).None? {
        return Some(InvalidAddress);
      }
      if msg.id !in Domains {
        return Some(KeyNotFound);
      }
      var domain := Domains[msg.id];
      if msg.creator != domain.creator && msg.creator != domain.owner {
        return Some(Unauthorized);
      }
      domain := domain.(expiration := env.oneYearAfter(now));
      Domains := Domains[msg.id := domain];
      return None;
    }

    method TransferDomain(msg: RegistryMsg) returns (err: Option<RegistryError>)
      requires msg.TransferDomain?
      modifies this`Domains
      ensures
        match Transfer(env, old(State()), msg)
        case Ok(s) => err == None && State() == s
        case Err(e) => err == Some(e) && State() == old(State())
    {
      if env.parseAddress(msg.creator).None? {
        return Some(InvalidAddress);
      }
      if env.parseAddress(msg.newOwner).None? {
        return Some(InvalidAddress);
      }
      if msg.id !in Domains {
        return Some(KeyNotFound);
      }
      var domain := Domains[msg.id];
      if domain.creator != msg.creator {
        return Some(Unauthorized);
      }
      domain := domain.(creator := msg.newOwner);
      domain := domain.(owner := msg.newOwner);
      Domains := Domains[msg.id := domain];
      return None;
    }

    // ---------- msg_update_params.go ----------

    method UpdateParams(msg: RegistryMsg) returns (err: Option<RegistryError>)
      requires msg.UpdateParams?
      modifies this`Params
      ensures
        match SetParams(env, old(State()), msg)
        case Ok(s) => err == None && State() == s
        case Err(e) => err == Some(e) && State() == old(State())
    {
      var authority := env.parseAddress(msg.authority);
      if authority.None? {
        return Some(InvalidAddress);
      }
      if authority.value != env.authority {
        return Some(InvalidSigner);
      }
      if !ValidCoins(msg.fee) {
        return Some(InvalidCoins);
      }
      Params := msg.fee;
      return None;
    }

    /** One transaction: all of the message's effect, or none. */
    method Deliver(now: nat, msg: RegistryMsg) returns (err: Option<RegistryError>)
      modifies this, bankKeeper
      ensures
        match Handle(env, now, old(State()), old(bankKeeper.state), msg)
        case Ok((s, b)) => err == None && State() == s && bankKeeper.state == b
        case Err(e) => err == Some(e) && State() == old(State()) && bankKeeper.state == old(bankKeeper.state)
    {
      hide Create, Update, Delete, Heartbeat, Transfer, SetParams;
      var before := bankKeeper.state;
      match msg
      case CreateDomain(_, _, _, _) =>
        var r := CreateDomain(now, msg);
        if r.Err? {
          bankKeeper.state := before;
          return Some(r.error);
        }
        return None;
      case UpdateDomain(_, _, _, _) => err := UpdateDomain(msg);
      case DeleteDomain(_, _) => err := DeleteDomain(msg);
      case HeartbeatDomain(_, _) => err := HeartbeatDomain(now, msg);
      case TransferDomain(_, _, _) => err := TransferDomain(msg);
      case UpdateParams(_, _) => err := UpdateParams(msg);
    }

    // ---------- genesis.go ----------

    /** The stores are empty when the chain starts. */
    method InitGenesis(genState: GenesisState)
      requires State() == EMPTY_REGISTRY
      modifies this
      ensures State() == Init(genState)
    {
      hide NormalizeName;
      var list, tlds := genState.domainList, genState.permittedTlds;
      for i := 0 to |list|
        invariant PermittedTLDs == {} && State() == LoadDomains(EMPTY_REGISTRY, list[..i])
      {
        var elem := list[i];
        assert list[..i + 1][..i] == list[..i] && list[..i + 1][i] == elem;
        Domains := Domains[elem.id := elem];
        var normalizedName := NormalizeName(elem.name);
        if normalizedName == "" && elem.name != "" {
          continue;
        }
        if normalizedName != "" {
          DomainName := DomainName[normalizedName := elem.id];
        }
      }
      assert list[..|list|] == list;
      DomainSeq := genState.domainCount;
      assert LoadedTlds(tlds[..0]) == {};
      for i := 0 to |tlds|
        invariant State() == LoadDomains(EMPTY_REGISTRY, list).(
          nextId := genState.domainCount, tlds := LoadedTlds(tlds[..i]))
      {
        var normalizedTLD := NormalizeName(tlds[i]);
        assert tlds[..i + 1] == tlds[..i] + [tlds[i]];
        assert LoadedTlds(tlds[..i + 1]) ==
          LoadedTlds(tlds[..i]) + (if normalizedTLD != "" then {normalizedTLD} else {});
        if normalizedTLD != "" {
          PermittedTLDs := PermittedTLDs + {normalizedTLD};
        }
      }
      assert tlds[..|tlds|] == tlds;
      Params := genState.fee;
    }

    method WalkDomains() returns (list: seq<TextDomain>)
      ensures IsDomainList(Domains, list)
    {
      list := [];
      var ids := Ascending(Domains.Keys);
      for i := 0 to |ids|
        invariant |list| == i
        invariant forall j :: 0 <= j < i ==> ids[j] in Domains && list[j] == Domains[ids[j]]
      {
        assert ids[i] in ids;
        list := list + [Domains[ids[i]]];
      }
    }

    method WalkTlds() returns (tlds: seq<string>)
      ensures Distinct(tlds) && (set t <- tlds) == PermittedTLDs
    {
      tlds := [];
      var left := PermittedTLDs;
      while left != {}
        invariant left <= PermittedTLDs && Distinct(tlds)
        invariant forall t :: t in tlds <==> t in PermittedTLDs && t !in left
        decreases |left|
      {
        var tld :| tld in left;
        assert tld !in tlds;
        tlds := tlds + [tld];
        left := left - {tld};
      }
    }

    method ExportGenesis() returns (genesis: GenesisState)
      ensures IsExport(State(), genesis)
    {
      hide IsDomainList, Distinct;
      var domainList := WalkDomains();
      var tlds := WalkTlds();
      genesis := GenesisState(Params, domainList, DomainSeq, tlds);
    }
  }

  /** GenesisState.Validate: two maps record what was seen. */
  method Validate(g: GenesisState) returns (ok: bool)
    ensures ok == ValidGenesis(g)
  {
    var domainIds: set<nat> := {};
    for i := 0 to |g.domainList|
      invariant domainIds == (set j | 0 <= j < i :: g.domainList[j].id)
      invariant ValidDomainList(g.domainList[..i], g.domainCount)
    {
      var elem := g.domainList[i];
      if elem.id in domainIds {
        return false;
      }
      if elem.id >= g.domainCount {
        return false;
      }
      domainIds := domainIds + {elem.id};
    }
    assert g.domainList[..|g.domainList|] == g.domainList;
    var seen: set<string> := {};
    for i := 0 to |g.permittedTlds|
      invariant seen == (set j | 0 <= j < i :: g.permittedTlds[j])
      invariant Distinct(g.permittedTlds[..i])
    {
      if g.permittedTlds[i] in seen {
        return false;
      }
      seen := seen + {g.permittedTlds[i]};
    }
    assert g.permittedTlds[..|g.permittedTlds|] == g.permittedTlds;
    return ValidCoins(g.fee);
  }
}
