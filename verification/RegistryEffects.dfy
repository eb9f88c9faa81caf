/**
 What each message to the registry does when it is accepted, exactly when it is,
 and what an error says about the one that is not.
 */
module RegistryEffects {
  import opened Wrappers
  import opened Bank
  import opened DomainTypes
  import opened Environment
  import opened Names
  import opened Registry
  import opened RegistryGenesis

  /** Nothing but the record under this id differs. */
  ghost predicate OnlyRecord(r: RegistryState, r': RegistryState, id: nat, d: TextDomain) {
    && r'.domains.Keys == r.domains.Keys && id in r'.domains && r'.domains[id] == d
    && (forall j <- r.domains :: j != id ==> r'.domains[j] == r.domains[j])
    && r'.names == r.names && r'.nextId == r.nextId && r'.tlds == r.tlds && r'.fee == r.fee
  }

  // ---------- update ----------

  /** A non-empty owner and a non-empty list of records replace the old ones; all else stays. */
  lemma UpdateEffect(env: Env, now: nat, r: RegistryState, b: BankState, m: RegistryMsg)
    requires RegistryOk(r) && m.UpdateDomain? && Handle(env, now, r, b, m).Ok?
    ensures m.id in r.domains && ValidRecords(env, m.nsRecords)
    ensures
      var (r', b') := Handle(env, now, r, b, m).value;
      var d := r.domains[m.id];
      && b' == b
      && OnlyRecord(r, r', m.id, Domain(
           m.id, d.name, if m.owner == "" then d.owner else m.owner,
           if m.nsRecords == [] then d.nsRecords else RecordsOf(m.nsRecords), d.creator, d.expiration))
  {
    hide ValidRecord, Indexed, StoredName, StoredTld;
  }

  /** The creator may change both, the owner only the records, and something must change. */
  lemma UpdateAccepted(env: Env, now: nat, r: RegistryState, b: BankState, m: RegistryMsg)
    requires m.UpdateDomain?
    ensures
      Handle(env, now, r, b, m).Ok? <==>
        && env.parseAddress(m.creator).Some? && m.id in r.domains
        && var d := r.domains[m.id];
           var newOwner := m.owner != "" && m.owner != d.owner;
           && (m.creator == d.creator || (m.creator == d.owner && !newOwner))
           && (newOwner ==> env.parseAddress(m.owner).Some?)
           && ValidRecords(env, m.nsRecords)
           && (newOwner || m.nsRecords != [])
  {
    hide ValidRecord;
  }

  // ---------- heartbeat, transfer, deletion ----------

  /** A heartbeat puts the expiration one year from now. */
  lemma HeartbeatEffect(env: Env, now: nat, r: RegistryState, b: BankState, m: RegistryMsg)
    requires m.HeartbeatDomain?
    ensures
      Handle(env, now, r, b, m).Ok? <==>
        && env.parseAddress(m.creator).Some? && m.id in r.domains
        && m.creator in {r.domains[m.id].creator, r.domains[m.id].owner}
    ensures Handle(env, now, r, b, m).Ok? ==>
      var (r', b') := Handle(env, now, r, b, m).value;
      var d := r.domains[m.id];
      && b' == b
      && OnlyRecord(r, r', m.id, Domain(d.id, d.name, d.owner, d.nsRecords, d.creator, env.oneYearAfter(now)))
  {
  }

  /** A transfer by the creator makes the new owner both. */
  lemma TransferEffect(env: Env, now: nat, r: RegistryState, b: BankState, m: RegistryMsg)
    requires m.TransferDomain?
    ensures
      Handle(env, now, r, b, m).Ok? <==>
        && env.parseAddress(m.creator).Some? && env.parseAddress(m.newOwner).Some?
        && m.id in r.domains && m.creator == r.domains[m.id].creator
    ensures Handle(env, now, r, b, m).Ok? ==>
      var (r', b') := Handle(env, now, r, b, m).value;
      var d := r.domains[m.id];
      && b' == b
      && OnlyRecord(r, r', m.id, Domain(d.id, d.name, m.newOwner, d.nsRecords, m.newOwner, d.expiration))
  {
  }

  /** A deletion by the owner removes the domain and frees its name, and touches no other. */
  lemma DeleteEffect(env: Env, now: nat, r: RegistryState, b: BankState, m: RegistryMsg)
    requires RegistryOk(r) && m.DeleteDomain?
    ensures
      Handle(env, now, r, b, m).Ok? <==>
        env.parseAddress(m.creator).Some? && m.id in r.domains && m.creator == r.domains[m.id].owner
    ensures Handle(env, now, r, b, m).Ok? ==>
      var (r', b') := Handle(env, now, r, b, m).value;
      && b' == b && r'.nextId == r.nextId && r'.tlds == r.tlds && r'.fee == r.fee
      && r'.domains.Keys == r.domains.Keys - {m.id} && (forall j <- r'.domains :: r'.domains[j] == r.domains[j])
      && r'.names.Keys == r.names.Keys - {r.domains[m.id].name}
      && (forall n <- r'.names :: r'.names[n] == r.names[n])
  {
    hide NormalizeName;
  }

  /** The authority, and nobody else, sets the fee to any valid coins. */
  lemma FeeUpdate(env: Env, now: nat, r: RegistryState, b: BankState, m: RegistryMsg)
    requires m.UpdateParams?
    ensures
      Handle(env, now, r, b, m).Ok? <==>
        env.parseAddress(m.authority) == Some(env.authority) && forall d <- m.fee :: m.fee[d] > 0
    ensures Handle(env, now, r, b, m).Ok? ==> Handle(env, now, r, b, m).value == (r.(fee := m.fee), b)
  {
  }

  // ---------- creation ----------

  /** With a sound bank the fee can be charged exactly when the payer has it. */
  lemma FeeCanBePaid(b: BankState, payer: Account, fee: Coins)
    requires Sound(b) && ValidCoins(fee)
    ensures ChargeFee(b, payer, fee).Ok? <==> forall d <- fee :: Balance(b, payer, d) >= fee[d]
  {
    if !IsZero(fee) && Covers(BalanceOf(b, payer), fee) {
      var b1 := Send(b, payer, DNS, fee).value;
      forall d | d in fee ensures AmountOf(BalanceOf(b1, DNS), d) >= fee[d] {
        SendBalance(b, payer, DNS, fee, DNS, d);
        assert Balance(b, DNS, d) >= 0 && Balance(b, payer, d) >= fee[d];
      }
      assert Covers(BalanceOf(b1, DNS), fee);
    } else if IsZero(fee) {
      assert fee.Keys == {};
    }
  }

  /** Accepted: two addresses, the fee, a name label.tld under a permitted TLD that no domain has, and valid records. */
  lemma CreateAccepted(env: Env, now: nat, r: RegistryState, b: BankState, m: RegistryMsg)
    requires RegistryOk(r) && Sound(b) && m.CreateDomain?
    ensures
      Handle(env, now, r, b, m).Ok? <==>
        && env.parseAddress(m.creator).Some? && env.parseAddress(m.owner).Some?
        && (forall d <- r.fee :: Balance(b, env.parseAddress(m.creator).value, d) >= r.fee[d])
        && (exists host, tld ::
              NormalizeName(m.name) == host + "." + tld && NoDot(host) && NoDot(tld) && tld != ""
              && NormalizeTld(tld) != "" && NormalizeTld(tld) in r.tlds)
        && (forall id <- r.domains :: r.domains[id].name != NormalizeName(m.name))
        && m.nsRecords != [] && ValidRecords(env, m.nsRecords)
  {
    hide NormalizeName, NormalizeTld, SplitDots, ChargeFee, ValidRecords, Sound, NoDot;
    var name := NormalizeName(m.name);
    if env.parseAddress(m.creator).Some? { FeeCanBePaid(b, env.parseAddress(m.creator).value, r.fee); }
    NameSplits(r, name);
    if name != "" { FreeName(r, name); } else { EmptySplits(); }
  }

  lemma NameSplits(r: RegistryState, name: string)
    ensures
      (exists host, tld ::
         name == host + "." + tld && NoDot(host) && NoDot(tld) && tld != ""
         && NormalizeTld(tld) != "" && NormalizeTld(tld) in r.tlds)
      <==> |SplitDots(name)| == 2 && SplitDots(name)[1] != "" && IsPermitted(r, SplitDots(name)[1])
  {
    hide NormalizeTld;
    if |SplitDots(name)| == 2 { SplitTwo(name); }
    if host, tld :| name == host + "." + tld && NoDot(host) && NoDot(tld) && tld != ""
                    && NormalizeTld(tld) != "" && NormalizeTld(tld) in r.tlds {
      SplitOfPair(host, tld);
    }
  }

  lemma EmptySplits()
    ensures |SplitDots("")| == 1
  {
  }

  /** A name is free in the index exactly when no domain has it. */
  lemma FreeName(r: RegistryState, name: string)
    requires RegistryOk(r) && name != ""
    ensures name !in r.names <==> forall id <- r.domains :: r.domains[id].name != name
  {
    hide NormalizeName;
    if name in r.names { assert r.domains[r.names[name]].name == name; }
  }

  /** The creation in full: the record, its index entry, the counter and the fee. */
  lemma CreateEffect(env: Env, now: nat, r: RegistryState, b: BankState, m: RegistryMsg, x: Account, d: Denom)
    requires RegistryOk(r) && HasRoom(r) && m.CreateDomain? && Handle(env, now, r, b, m).Ok?
    ensures env.parseAddress(m.creator).Some? && ValidRecords(env, m.nsRecords)
    ensures
      var (r', b') := Handle(env, now, r, b, m).value;
      var name, payer := NormalizeName(m.name), env.parseAddress(m.creator).value;
      && r' == r.(
           nextId := r.nextId + 1,
           domains := r.domains[r.nextId := Domain(r.nextId, name, m.owner, RecordsOf(m.nsRecords), m.creator,
                                                   env.oneYearAfter(now))],
           names := r.names[name := r.nextId])
      && Balance(b', x, d) == Balance(b, x, d) - (if x == payer then AmountOf(r.fee, d) else 0)
      && Supply(b', d) == Supply(b, d) - AmountOf(r.fee, d)
  {
    hide NormalizeName, SplitDots, ChargeFee, IsPermitted, ValidRecord;
    ChargeFeeEffect(b, env.parseAddress(m.creator).value, r.fee, x, d);
  }

  /** A record that is missing, has a blank name or lists something that is not an IP address spoils the message. */
  lemma BadRecordRefused(env: Env, now: nat, r: RegistryState, b: BankState, m: RegistryMsg, i: nat)
    requires m.CreateDomain? || m.UpdateDomain?
    requires i < |m.nsRecords|
    requires
      var e := m.nsRecords[i];
      || e.None?
      || (forall c <- e.value.name :: IsSpace(c))
      || (exists ip :: ip in e.value.ipv4 && !env.isIp(ip))
      || (exists ip :: ip in e.value.ipv6 && !env.isIp(ip))
    ensures Handle(env, now, r, b, m).Err?
  {
    hide NormalizeName, SplitDots, ChargeFee, IsPermitted;
    if m.nsRecords[i].Some? { BlankTrims(m.nsRecords[i].value.name); }
    assert !ValidRecord(env, m.nsRecords[i]);
  }

  lemma {:induction false} LeftPartIsCut(s: string, cut: char -> bool, c: char)
    requires c in s && !cut(c)
    ensures c in TrimLeft(s, cut)
  {
    if cut(s[0]) {
      assert s == [s[0]] + s[1..];
      LeftPartIsCut(s[1..], cut, c);
    }
  }

  lemma {:induction false} RightPartIsCut(s: string, cut: char -> bool, c: char)
    requires c in s && !cut(c)
    ensures c in TrimRight(s, cut)
  {
    var last := |s| - 1;
    if cut(s[last]) {
      assert s == s[..last] + [s[last]];
      RightPartIsCut(s[..last], cut, c);
    }
  }

  /** Trimming empties exactly the strings of spaces. */
  lemma BlankTrims(s: string)
    ensures Trim(s, IsSpace) == "" <==> forall c <- s :: IsSpace(c)
  {
    TrimLaw(s, IsSpace);
    var t := Trim(s, IsSpace);
    assert t != "" ==> t[0] in s;
    if c :| c in s && !IsSpace(c) {
      LeftPartIsCut(s, IsSpace, c);
      RightPartIsCut(TrimLeft(s, IsSpace), IsSpace, c);
    }
  }

  /** Records are valid exactly when all are there, none has a blank name, and all list IP addresses only. */
  lemma RecordsExactly(env: Env, list: seq<Option<TextRecord>>)
    ensures
      ValidRecords(env, list) <==>
        forall e <- list ::
          && e.Some? && (exists c :: c in e.value.name && !IsSpace(c))
          && (forall ip :: ip in e.value.ipv4 || ip in e.value.ipv6 ==> env.isIp(ip))
  {
    forall e <- list ensures e.Some? ==>
      (Trim(e.value.name, IsSpace) != "" <==> exists c :: c in e.value.name && !IsSpace(c))
    {
      if e.Some? { BlankTrims(e.value.name); }
    }
    assert ValidRecords(env, list) <==> forall e <- list :: ValidRecord(env, e);
  }

  // ---------- what an error says ----------

  /** Every error names something that is really wrong with the message. */
  lemma ErrorsAreTrue(env: Env, now: nat, r: RegistryState, b: BankState, m: RegistryMsg)
    requires Handle(env, now, r, b, m).Err?
    ensures
      match Handle(env, now, r, b, m).error
      case InvalidAddress =>
        || env.parseAddress(Signer(m)).None?
        || ((m.CreateDomain? || m.UpdateDomain?) && env.parseAddress(m.owner).None?)
        || (m.TransferDomain? && env.parseAddress(m.newOwner).None?)
      case InvalidSigner => m.UpdateParams? && env.parseAddress(m.authority) != Some(env.authority)
      case InvalidCoins => m.UpdateParams? && !ValidCoins(m.fee)
      case FeeNotPaid(_) => m.CreateDomain? && ChargeFee(b, env.parseAddress(m.creator).value, r.fee).Err?
      case InvalidDomainName =>
        m.CreateDomain? && !exists host, tld :: NameParts(NormalizeName(m.name), host, tld)
      case TldNotPermitted =>
        m.CreateDomain? && |SplitDots(NormalizeName(m.name))| == 2
        && NormalizeTld(SplitDots(NormalizeName(m.name))[1]) !in (r.tlds - {""})
      case DuplicateDomainName => m.CreateDomain? && NormalizeName(m.name) in r.names
      case InvalidRequest =>
        || (m.CreateDomain? && (m.nsRecords == [] || !ValidRecords(env, m.nsRecords)))
        || (m.UpdateDomain? && !ValidRecords(env, m.nsRecords))
        || (m.UpdateDomain? && m.nsRecords == [] && m.id in r.domains && m.owner in {"", r.domains[m.id].owner})
      case KeyNotFound => !m.CreateDomain? && !m.UpdateParams? && m.id !in r.domains
      case Unauthorized =>
        && !m.CreateDomain? && !m.UpdateParams? && m.id in r.domains
        && (m.DeleteDomain? ==> Signer(m) != r.domains[m.id].owner)
        && (!m.DeleteDomain? ==> Signer(m) != r.domains[m.id].creator)
      case TldReserved => false
      case InvalidTld => false
  {
    hide NormalizeName, NormalizeTld, SplitDots, ChargeFee, ValidRecords;
    if m.CreateDomain? { NotLabelTld(NormalizeName(m.name)); }
  }

  lemma NotLabelTld(name: string)
    ensures
      (exists host, tld :: NameParts(name, host, tld)) ==> |SplitDots(name)| == 2 && SplitDots(name)[1] != ""
  {
    if host, tld :| NameParts(name, host, tld) { SplitOfPair(host, tld); }
  }

  // ---------- top-level domains ----------

  /** A label is opened exactly when it has 2 to 63 characters and no dot, is not reserved and not permitted yet. */
  lemma AddPermittedTldExactly(r: RegistryState, tld: string)
    ensures
      var t, a := ToLower(Trim(tld, IsSpace)), AddPermittedTld(r, tld);
      && (a.Ok? <==> 2 <= |t| <= 63 && '.' !in t && t !in RESERVED_TLDS && t !in r.tlds)
      && (a.Ok? ==> a.value == r.(tlds := r.tlds + {t}))
      && (a == Err(TldReserved) <==> NormalizeName(t) in RESERVED_TLDS)
  {
    var t := NormalizeTld(tld);
    ToLowerTwice(Trim(tld, IsSpace));
    if '.' !in t { NameOfTld(t); }
  }

  /** Afterwards exactly the spellings of the new label are permitted besides the old ones. */
  lemma PermittedAfterAdd(r: RegistryState, tld: string, x: string)
    requires AddPermittedTld(r, tld).Ok?
    ensures
      IsPermitted(AddPermittedTld(r, tld).value, x) <==>
        IsPermitted(r, x) || ToLower(Trim(x, IsSpace)) == ToLower(Trim(tld, IsSpace))
  {
  }

  // ---------- lookup and genesis ----------

  lemma EmptyLookup(r: RegistryState, now: nat)
    ensures GetDomainByName(r, now, "") == InvalidArgument
    ensures forall name :: name != "" ==> !GetDomainByName(r, now, name).InvalidArgument?
  {
  }

  /** The last domain of the list with this id and with this normal form of the name. */
  ghost predicate IsLastWithId(list: seq<TextDomain>, i: nat) {
    i < |list| && forall j :: i < j < |list| ==> list[j].id != list[i].id
  }

  ghost predicate IsLastWithName(list: seq<TextDomain>, i: nat) {
    i < |list| && forall j :: i < j < |list| ==> NormalizeName(list[j].name) != NormalizeName(list[i].name)
  }

  /** For any list, valid or not: the id map keeps the last domain of each id, the index the last of each normal name. */
  lemma {:induction false} ImportKeepsLast(list: seq<TextDomain>, i: nat)
    requires i < |list|
    ensures
      var r := LoadDomains(EMPTY_REGISTRY, list);
      && (IsLastWithId(list, i) ==> list[i].id in r.domains && r.domains[list[i].id] == list[i])
      && (IsLastWithName(list, i) && NormalizeName(list[i].name) != "" ==>
            NormalizeName(list[i].name) in r.names && r.names[NormalizeName(list[i].name)] == list[i].id)
    decreases |list|
  {
    hide NormalizeName;
    var front := list[..|list| - 1];
    if i < |front| {
      ImportKeepsLast(front, i);
      assert IsLastWithId(list, i) ==> IsLastWithId(front, i) && list[|front|].id != list[i].id;
      assert IsLastWithName(list, i) ==>
        IsLastWithName(front, i) && NormalizeName(list[|front|].name) != NormalizeName(list[i].name);
    }
  }

  ghost predicate ListsName(list: seq<TextDomain>, n: string) {
    exists i :: 0 <= i < |list| && NormalizeName(list[i].name) == n
  }

  /** Nothing else is imported: every entry comes from the list, and no empty name is indexed. */
  lemma {:induction false} ImportAddsNothing(list: seq<TextDomain>)
    ensures
      var r := LoadDomains(EMPTY_REGISTRY, list);
      && (forall id <- r.domains :: HasId(list, id))
      && (forall n <- r.names :: n != "" && ListsName(list, n))
    decreases |list|
  {
    hide NormalizeName, HasId, ListsName;
    if list != [] {
      var front, last := list[..|list| - 1], list[|list| - 1];
      ImportAddsNothing(front);
      assert list == front + [last];
      forall id | HasId(front, id) || id == last.id ensures HasId(list, id) { HasIdAppend(front, last, id); }
      forall n | ListsName(front, n) || n == NormalizeName(last.name) ensures ListsName(list, n) {
        ListsNameAppend(front, last, n);
      }
    }
  }

  lemma HasIdAppend(front: seq<TextDomain>, last: TextDomain, id: nat)
    requires HasId(front, id) || id == last.id
    ensures HasId(front + [last], id)
  {
    var list := front + [last];
    assert list[|front|] == last;
    if i :| 0 <= i < |front| && front[i].id == id { assert list[i].id == id; }
  }

  lemma ListsNameAppend(front: seq<TextDomain>, last: TextDomain, n: string)
    requires ListsName(front, n) || n == NormalizeName(last.name)
    ensures ListsName(front + [last], n)
  {
    hide NormalizeName;
    var list := front + [last];
    assert list[|front|] == last;
    if i :| 0 <= i < |front| && NormalizeName(front[i].name) == n { assert NormalizeName(list[i].name) == n; }
  }

  /** The rest of an import: the fee, the count, and the labels without surrounding dots, in lower case. */
  lemma ImportRest(g: GenesisState, t: string)
    ensures Init(g).fee == g.fee && Init(g).nextId == g.domainCount
    ensures t in Init(g).tlds <==> t != "" && exists s :: s in g.permittedTlds && ToLower(Trim(s, IsDot)) == t
  {
  }
}
