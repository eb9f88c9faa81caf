/**
 The domain registry of x/dnsblockchain/keeper as functions on its stores, and
 the invariant that ties the id map to the name index.
 */
module Registry {
  import opened Wrappers
  import opened GoInts
  import opened Bank
  import opened DomainTypes
  import opened Environment
  import opened Names

  type TextDomain = Domain<string>
  type TextRecord = NsRecord<string>

  /** The stores of the keeper; `fee` is the module's only parameter. */
  datatype RegistryState = RegistryState(
    fee: Coins,
    nextId: nat,
    domains: map<nat, TextDomain>,
    names: map<string, nat>,
    tlds: set<string>)

  datatype RegistryError =
    | InvalidAddress
    | InvalidSigner
    | InvalidCoins
    | FeeNotPaid(why: BankError)
    | InvalidDomainName
    | TldNotPermitted
    | DuplicateDomainName
    | InvalidRequest
    | KeyNotFound
    | Unauthorized
    | TldReserved
    | InvalidTld

  /** The messages of proto/dnsblockchain/dnsblockchain/v1/tx.proto; a nil record is None. */
  datatype RegistryMsg =
    | CreateDomain(creator: string, name: string, owner: string, nsRecords: seq<Option<TextRecord>>)
    | UpdateDomain(creator: string, id: nat, owner: string, nsRecords: seq<Option<TextRecord>>)
    | DeleteDomain(creator: string, id: nat)
    | HeartbeatDomain(creator: string, id: nat)
    | TransferDomain(creator: string, id: nat, newOwner: string)
    | UpdateParams(authority: string, fee: Coins)

  // ---------- top-level domains ----------

  predicate IsPermitted(r: RegistryState, tld: string) {
    NormalizeTld(tld) != "" && NormalizeTld(tld) in r.tlds
  }

  function AddPermittedTld(r: RegistryState, tld: string): Result<RegistryState, RegistryError> {
    var t := NormalizeTld(tld);
    if IsReservedTld(t) then Err(TldReserved)
    else if t == "" || '.' in t || |t| > 63 || |t| < 2 || t in r.tlds then Err(InvalidTld)
    else Ok(r.(tlds := r.tlds + {t}))
  }

  // ---------- messages ----------

  predicate ValidRecord(env: Env, e: Option<TextRecord>) {
    && e.Some?
    && Trim(e.value.name, IsSpace) != ""
    && (forall ip <- e.value.ipv4 :: env.isIp(ip))
    && (forall ip <- e.value.ipv6 :: env.isIp(ip))
  }

  predicate ValidRecords(env: Env, list: seq<Option<TextRecord>>) {
    forall i :: 0 <= i < |list| ==> ValidRecord(env, list[i])
  }

  function RecordsOf(list: seq<Option<TextRecord>>): seq<TextRecord>
    requires forall i :: 0 <= i < |list| ==> list[i].Some?
  {
    seq(|list|, i requires 0 <= i < |list| => list[i].value)
  }

  /** The creation fee goes to the module account and is burned there. */
  function ChargeFee(b: BankState, payer: Account, fee: Coins): Result<BankState, BankError> {
    if IsZero(fee) then Ok(b)
    else
      var b1 :- Send(b, payer, DNS, fee);
      BurnFrom(b1, DNS, fee)
  }

  /** What the attempt to charge it leaves behind, also when it fails. */
  function BankAfterFee(b: BankState, payer: Account, fee: Coins): BankState {
    if IsZero(fee) then b
    else
      match Send(b, payer, DNS, fee)
      case Err(_) => b
      case Ok(b1) =>
        match BurnFrom(b1, DNS, fee)
        case Err(_) => b1
        case Ok(b2) => b2
  }

  function Create(env: Env, now: nat, r: RegistryState, b: BankState, m: RegistryMsg)
    : Result<(RegistryState, BankState), RegistryError>
    requires m.CreateDomain?
  {
    var payer, name := env.parseAddress(m.creator), NormalizeName(m.name);
    var parts := SplitDots(name);
    if payer.None? || env.parseAddress(m.owner).None? then Err(InvalidAddress)
    else
      match ChargeFee(b, payer.value, r.fee)
      case Err(e) => Err(FeeNotPaid(e))
      case Ok(b') =>
        if |parts| != 2 || parts[1] == "" then Err(InvalidDomainName)
        else if !IsPermitted(r, parts[1]) then Err(TldNotPermitted)
        else if name in r.names then Err(DuplicateDomainName)
        else if m.nsRecords == [] || !ValidRecords(env, m.nsRecords) then Err(InvalidRequest)
        else
          var d := Domain(r.nextId, name, m.owner, RecordsOf(m.nsRecords), m.creator, env.oneYearAfter(now));
          Ok((r.(nextId := NextId(r.nextId),
                 domains := r.domains[r.nextId := d],
                 names := r.names[name := r.nextId]), b'))
  }

  /** Only the creator may change the owner; the creator and the owner may replace the records. */
  function Update(env: Env, r: RegistryState, m: RegistryMsg): Result<RegistryState, RegistryError>
    requires m.UpdateDomain?
  {
    if env.parseAddress(m.creator).None? then Err(InvalidAddress)
    else if m.id !in r.domains then Err(KeyNotFound)
    else
      var d := r.domains[m.id];
      var isCreator := m.creator == d.creator;
      var newOwner := m.owner != "" && m.owner != d.owner;
      var newRecords := m.nsRecords != [];
      if !isCreator && m.creator != d.owner then Err(Unauthorized)
      else if newOwner && !isCreator then Err(Unauthorized)
      else if newOwner && env.parseAddress(m.owner).None? then Err(InvalidAddress)
      else if newRecords && !ValidRecords(env, m.nsRecords) then Err(InvalidRequest)
      else if !newOwner && !newRecords then Err(InvalidRequest)
      else
        Ok(r.(domains := r.domains[m.id := d.(
          id := m.id,
          owner := if newOwner then m.owner else d.owner,
          nsRecords := if newRecords then RecordsOf(m.nsRecords) else d.nsRecords)]))
  }

  function Delete(env: Env, r: RegistryState, m: RegistryMsg): Result<RegistryState, RegistryError>
    requires m.DeleteDomain?
  {
    if env.parseAddress(m.creator).None? then Err(InvalidAddress)
    else if m.id !in r.domains then Err(KeyNotFound)
    else if m.creator != r.domains[m.id].owner then Err(Unauthorized)
    else Ok(r.(names := r.names - {r.domains[m.id].name}, domains := r.domains - {m.id}))
  }

  function Heartbeat(env: Env, now: nat, r: RegistryState, m: RegistryMsg): Result<RegistryState, RegistryError>
    requires m.HeartbeatDomain?
  {
    if env.parseAddress(m.creator).None? then Err(InvalidAddress)
    else if m.id !in r.domains then Err(KeyNotFound)
    else
      var d := r.domains[m.id];
      if m.creator != d.creator && m.creator != d.owner then Err(Unauthorized)
      else Ok(r.(domains := r.domains[m.id := d.(expiration := env.oneYearAfter(now))]))
  }

  /** A transfer makes the new owner the creator as well. */
  function Transfer(env: Env, r: RegistryState, m: RegistryMsg): Result<RegistryState, RegistryError>
    requires m.TransferDomain?
  {
    if env.parseAddress(m.creator).None? || env.parseAddress(m.newOwner).None? then Err(InvalidAddress)
    else if m.id !in r.domains then Err(KeyNotFound)
    else
      var d := r.domains[m.id];
      if m.creator != d.creator then Err(Unauthorized)
      else Ok(r.(domains := r.domains[m.id := d.(creator := m.newOwner, owner := m.newOwner)]))
  }

  function SetParams(env: Env, r: RegistryState, m: RegistryMsg): Result<RegistryState, RegistryError>
    requires m.UpdateParams?
  {
    match env.parseAddress(m.authority)
    case None => Err(InvalidAddress)
    case Some(a) =>
      if a != env.authority then Err(InvalidSigner)
      else if !ValidCoins(m.fee) then Err(InvalidCoins)
      else Ok(r.(fee := m.fee))
  }

  /** What a message does when it succeeds; on an error the transaction changes nothing. */
  function Handle(env: Env, now: nat, r: RegistryState, b: BankState, m: RegistryMsg)
    : Result<(RegistryState, BankState), RegistryError>
  {
    match m
    case CreateDomain(_, _, _, _) => Create(env, now, r, b, m)
    case UpdateDomain(_, _, _, _) => var r' :- Update(env, r, m); Ok((r', b))
    case DeleteDomain(_, _) => var r' :- Delete(env, r, m); Ok((r', b))
    case HeartbeatDomain(_, _) => var r' :- Heartbeat(env, now, r, m); Ok((r', b))
    case TransferDomain(_, _, _) => var r' :- Transfer(env, r, m); Ok((r', b))
    case UpdateParams(_, _) => var r' :- SetParams(env, r, m); Ok((r', b))
  }

  // ---------- the invariant ----------

  /** A name as it is stored: empty (and then not indexed) or in normal form. */
  ghost predicate StoredName(n: string) {
    n == NormalizeName(n)
  }

  ghost predicate StoredTld(t: string) {
    t != "" && NormalizeName(t) == t
  }

  /** The id map and the name index are inverse to each other on non-empty names. */
  ghost predicate Indexed(r: RegistryState) {
    && (forall n <- r.names :: n != "" && r.names[n] in r.domains && r.domains[r.names[n]].name == n)
    && (forall id <- r.domains :: r.domains[id].name != "" ==>
          r.domains[id].name in r.names && r.names[r.domains[id].name] == id)
  }

  ghost predicate RegistryOk(r: RegistryState) {
    && Indexed(r)
    && (forall id <- r.domains ::
          r.domains[id].id == id && id < r.nextId && StoredName(r.domains[id].name))
    && (forall t <- r.tlds :: StoredTld(t))
    && ValidCoins(r.fee)
  }

  /** What holds of any later state: names stay with their ids, ids and TLDs are never taken back. */
  ghost predicate RegistryHistory(r: RegistryState, r': RegistryState) {
    && r.nextId <= r'.nextId
    && (forall id <- r'.domains :: id < r.nextId ==>
          id in r.domains && r'.domains[id].name == r.domains[id].name)
    && r.tlds <= r'.tlds
  }

  lemma RegistryHistoryTransitive(r: RegistryState, r1: RegistryState, r2: RegistryState)
    requires RegistryHistory(r, r1) && RegistryHistory(r1, r2)
    ensures RegistryHistory(r, r2)
  {
  }

  /** The counter has not reached its last value. */
  predicate HasRoom(r: RegistryState) {
    r.nextId + 1 < TWO_64
  }

  lemma InsertKeepsOk(r: RegistryState, r': RegistryState, d: TextDomain)
    requires RegistryOk(r) && d.id == r.nextId && d.name != "" && StoredName(d.name)
    requires d.name !in r.names
    requires r' == r.(nextId := r.nextId + 1,
                      domains := r.domains[r.nextId := d],
                      names := r.names[d.name := r.nextId])
    ensures RegistryOk(r') && RegistryHistory(r, r')
  {
    hide NormalizeName;
    assert r.nextId !in r.domains;
    forall n | n in r'.names
      ensures n != "" && r'.names[n] in r'.domains && r'.domains[r'.names[n]].name == n
    {
      if n != d.name { assert n in r.names; }
    }
  }

  lemma CreateKeepsOk(env: Env, now: nat, r: RegistryState, b: BankState, m: RegistryMsg)
    requires RegistryOk(r) && HasRoom(r) && m.CreateDomain? && Create(env, now, r, b, m).Ok?
    ensures
      var r' := Create(env, now, r, b, m).value.0;
      && RegistryOk(r') && RegistryHistory(r, r')
      && r'.nextId == r.nextId + 1 && r'.domains.Keys == r.domains.Keys + {r.nextId}
  {
    hide NormalizeName, ChargeFee, IsPermitted, RegistryOk, RegistryHistory;
    var r' := Create(env, now, r, b, m).value.0;
    NormalizeNameTwice(m.name);
    InsertKeepsOk(r, r', r'.domains[r.nextId]);
  }

  lemma EditKeepsOk(r: RegistryState, r': RegistryState, id: nat, d: TextDomain)
    requires RegistryOk(r) && id in r.domains
    requires d.id == id && d.name == r.domains[id].name
    requires r' == r.(domains := r.domains[id := d])
    ensures RegistryOk(r') && RegistryHistory(r, r')
  {
  }

  lemma DeleteKeepsOk(env: Env, r: RegistryState, m: RegistryMsg)
    requires RegistryOk(r) && m.DeleteDomain? && Delete(env, r, m).Ok?
    ensures RegistryOk(Delete(env, r, m).value) && RegistryHistory(r, Delete(env, r, m).value)
  {
    var r' := Delete(env, r, m).value;
    var name := r.domains[m.id].name;
    forall n | n in r'.names
      ensures n != "" && r'.names[n] in r'.domains && r'.domains[r'.names[n]].name == n
    {
      assert n in r.names && n != name;
    }
    forall id | id in r'.domains && r'.domains[id].name != ""
      ensures r'.domains[id].name in r'.names && r'.names[r'.domains[id].name] == id
    {
      assert id in r.domains && id != m.id;
      assert r.names[r.domains[id].name] == id;
    }
  }

  /** Every message keeps the registry's invariant. */
  lemma HandleKeepsOk(env: Env, now: nat, r: RegistryState, b: BankState, m: RegistryMsg)
    requires RegistryOk(r) && HasRoom(r) && Handle(env, now, r, b, m).Ok?
    ensures
      var r' := Handle(env, now, r, b, m).value.0;
      RegistryOk(r') && RegistryHistory(r, r')
  {
    match m
    case CreateDomain(_, _, _, _) => CreateKeepsOk(env, now, r, b, m);
    case UpdateDomain(_, id, _, _) =>
      var r' := Update(env, r, m).value;
      EditKeepsOk(r, r', id, r'.domains[id]);
    case DeleteDomain(_, _) => DeleteKeepsOk(env, r, m);
    case HeartbeatDomain(_, id) =>
      var r' := Heartbeat(env, now, r, m).value;
      EditKeepsOk(r, r', id, r'.domains[id]);
    case TransferDomain(_, id, _) =>
      var r' := Transfer(env, r, m).value;
      EditKeepsOk(r, r', id, r'.domains[id]);
    case UpdateParams(_, _) =>
  }

  lemma AddPermittedTldKeepsOk(r: RegistryState, tld: string)
    requires RegistryOk(r) && AddPermittedTld(r, tld).Ok?
    ensures
      var r' := AddPermittedTld(r, tld).value;
      && RegistryOk(r') && RegistryHistory(r, r')
      && r'.nextId == r.nextId && r'.domains == r.domains
  {
    var t := NormalizeTld(tld);
    NameOfTld(t);
    ToLowerTwice(Trim(tld, IsSpace));
  }

  // ---------- who may do what ----------

  function Signer(m: RegistryMsg): string {
    if m.UpdateParams? then m.authority else m.creator
  }

  ghost predicate ChangedOnlyBy(d: TextDomain, d': TextDomain, signer: string) {
    && d'.id == d.id && d'.name == d.name
    && (d'.owner != d.owner || d'.creator != d.creator ==> signer == d.creator)
    && (d' != d ==> signer == d.creator || signer == d.owner)
  }

  /**
   Whatever the message: a domain disappears only if its owner signed, changes
   hands only if its creator signed, and changes at all only if one of the two
   signed; and no message touches two domains.
   */
  lemma AccessControl(env: Env, now: nat, r: RegistryState, b: BankState, m: RegistryMsg, id: nat)
    requires RegistryOk(r) && Handle(env, now, r, b, m).Ok? && id in r.domains
    ensures
      var r' := Handle(env, now, r, b, m).value.0;
      && (id !in r'.domains ==> Signer(m) == r.domains[id].owner)
      && (id in r'.domains ==> ChangedOnlyBy(r.domains[id], r'.domains[id], Signer(m)))
      && forall j <- r.domains :: j != id && (id !in r'.domains || r'.domains[id] != r.domains[id]) ==>
           j in r'.domains && r'.domains[j] == r.domains[j]
  {
    hide NormalizeName, SplitDots, ChargeFee, IsPermitted, ValidRecords;
  }

  /**
   Registration looks at the name index only: a name that is taken stays taken
   after its domain has expired, until the owner deletes it.
   */
  lemma ExpiredNameStaysTaken(env: Env, now: nat, r: RegistryState, b: BankState, m: RegistryMsg)
    requires RegistryOk(r) && m.CreateDomain?
    requires NormalizeName(m.name) in r.names
    ensures Create(env, now, r, b, m).Err?
    ensures GetDomainByName(r, now, m.name) ==
      (if m.name == "" then InvalidArgument
       else var d := r.domains[r.names[NormalizeName(m.name)]]; Found(d, now >= d.expiration))
  {
  }

  // ---------- names of registered domains ----------

  /** label.tld, in lower case, under a permitted TLD (looked up without surrounding spaces). */
  ghost predicate RegisteredName(tlds: set<string>, name: string) {
    && ToLower(name) == name
    && exists host, tld :: NameParts(name, host, tld) && NormalizeTld(tld) in tlds
  }

  ghost predicate NameParts(name: string, host: string, tld: string) {
    name == host + "." + tld && NoDot(host) && NoDot(tld) && host != "" && tld != ""
  }

  lemma CreatedName(env: Env, now: nat, r: RegistryState, b: BankState, m: RegistryMsg)
    requires m.CreateDomain? && Create(env, now, r, b, m).Ok?
    ensures
      var r' := Create(env, now, r, b, m).value.0;
      r.nextId in r'.domains && RegisteredName(r'.tlds, r'.domains[r.nextId].name)
  {
    var name := NormalizeName(m.name);
    NormalizeNameTwice(m.name);
    ToLowerTwice(Trim(m.name, IsDot));
    SplitTwo(name);
    var p := SplitDots(name);
    assert name[|p[0]|] == '.';
    assert NameParts(name, p[0], p[1]);
  }

  lemma RegisteredNameGrows(tlds: set<string>, tlds': set<string>, name: string)
    requires RegisteredName(tlds, name) && tlds <= tlds'
    ensures RegisteredName(tlds', name)
  {
  }

  // ---------- lookup ----------

  datatype Lookup = InvalidArgument | NotFound | Inconsistent | Found(domain: TextDomain, expired: bool)

  /** GetDomainByName: through the name index, then the id map. */
  function GetDomainByName(r: RegistryState, now: nat, name: string): Lookup {
    var n := NormalizeName(name);
    if name == "" then InvalidArgument
    else if n !in r.names then NotFound
    else if r.names[n] !in r.domains then Inconsistent
    else
      var d := r.domains[r.names[n]];
      Found(d, now >= d.expiration)
  }

  /**
   The lookup answers what a scan of the named domains for the normalised name
   would: the one domain of that name, or that there is none. Its branch for
   inconsistent data is dead.
   */
  lemma LookupIsScan(r: RegistryState, now: nat, name: string)
    requires RegistryOk(r) && name != ""
    ensures
      GetDomainByName(r, now, name) == NotFound <==>
        forall id <- r.domains :: r.domains[id].name == "" || r.domains[id].name != NormalizeName(name)
    ensures
      forall id <- r.domains :: r.domains[id].name != "" && r.domains[id].name == NormalizeName(name) ==>
        GetDomainByName(r, now, name) == Found(r.domains[id], now >= r.domains[id].expiration)
    ensures !GetDomainByName(r, now, name).Inconsistent?
  {
    var n := NormalizeName(name);
    if n in r.names { assert r.domains[r.names[n]].name == n; }
  }

  lemma NoDuplicateNames(r: RegistryState, i: nat, j: nat)
    requires RegistryOk(r) && i in r.domains && j in r.domains
    requires r.domains[i].name == r.domains[j].name != ""
    ensures i == j
  {
    assert r.names[r.domains[i].name] == i && r.names[r.domains[j].name] == j;
  }

  // ---------- one message after another ----------

  /** A created domain is found at once, by its name in any spelling, as it was created. */
  lemma CreatedIsFound(env: Env, now: nat, r: RegistryState, b: BankState, m: RegistryMsg, later: nat, spelling: string)
    requires RegistryOk(r) && HasRoom(r) && m.CreateDomain? && Create(env, now, r, b, m).Ok?
    requires spelling != "" && NormalizeName(spelling) == NormalizeName(m.name)
    ensures
      var r' := Create(env, now, r, b, m).value.0;
      GetDomainByName(r', later, spelling) ==
        Found(Domain(r.nextId, NormalizeName(m.name), m.owner, RecordsOf(m.nsRecords), m.creator, env.oneYearAfter(now)),
              later >= env.oneYearAfter(now))
  {
    hide NormalizeName, ChargeFee, IsPermitted, SplitDots;
  }

  /** Deleting what was just created undoes the creation, but for the id and the fee. */
  lemma DeleteUndoesCreate(env: Env, now: nat, r: RegistryState, b: BankState, m: RegistryMsg)
    requires RegistryOk(r) && HasRoom(r) && m.CreateDomain? && Create(env, now, r, b, m).Ok?
    ensures
      var r' := Create(env, now, r, b, m).value.0;
      Delete(env, r', DeleteDomain(m.owner, r.nextId)) == Ok(r.(nextId := r.nextId + 1))
  {
    hide NormalizeName, ChargeFee, IsPermitted, SplitDots, Indexed;
    var name, r' := NormalizeName(m.name), Create(env, now, r, b, m).value.0;
    assert r.nextId !in r.domains && name !in r.names;
    assert r'.names - {name} == r.names;
    assert r'.domains - {r.nextId} == r.domains;
  }

  /** The domain that a message is about. */
  predicate Targets(m: RegistryMsg, id: nat) {
    (m.UpdateDomain? || m.DeleteDomain? || m.HeartbeatDomain? || m.TransferDomain?) && m.id == id
  }

  /** After a transfer nobody but the new owner can do anything to the domain. */
  lemma TransferIsComplete(env: Env, r: RegistryState, m: RegistryMsg, now: nat, b: BankState, next: RegistryMsg)
    requires m.TransferDomain? && Transfer(env, r, m).Ok?
    requires Targets(next, m.id) && Signer(next) != m.newOwner
    ensures Handle(env, now, Transfer(env, r, m).value, b, next).Err?
  {
  }

  // ---------- what the documents promise otherwise ----------

  function WithRecords(m: RegistryMsg, list: seq<Option<TextRecord>>): RegistryMsg
    requires m.CreateDomain?
  {
    CreateDomain(m.creator, m.name, m.owner, list)
  }

  /** Where one list of records is accepted, so is any other, of any length, but not the empty one. */
  lemma AnyNumberOfRecords(env: Env, now: nat, r: RegistryState, b: BankState, m: RegistryMsg,
                           list: seq<Option<TextRecord>>, n: nat)
    requires m.CreateDomain? && Create(env, now, r, b, m).Ok?
    ensures Create(env, now, r, b, WithRecords(m, list)).Ok? <==> list != [] && ValidRecords(env, list)
    ensures Create(env, now, r, b, WithRecords(m, seq(n, _ => m.nsRecords[0]))).Ok? <==> n > 0
  {
    hide NormalizeName, SplitDots, ChargeFee, IsPermitted;
  }

  /** No message but a registration moves a coin. */
  lemma OnlyCreationIsPaid(env: Env, now: nat, r: RegistryState, b: BankState, m: RegistryMsg)
    requires !m.CreateDomain? && Handle(env, now, r, b, m).Ok?
    ensures Handle(env, now, r, b, m).value.1 == b
  {
    hide Update, Delete, Heartbeat, Transfer, SetParams;
  }

  // ---------- the fee ----------

  /** A registration costs the payer exactly the fee and takes it out of the supply. */
  lemma ChargeFeeEffect(b: BankState, payer: Account, fee: Coins, x: Account, d: Denom)
    requires ChargeFee(b, payer, fee).Ok?
    ensures
      var b' := ChargeFee(b, payer, fee).value;
      && Supply(b', d) == Supply(b, d) - AmountOf(fee, d)
      && Balance(b', x, d) == Balance(b, x, d) - (if x == payer then AmountOf(fee, d) else 0)
  {
    if !IsZero(fee) {
      var b1 := Send(b, payer, DNS, fee).value;
      SendBalance(b, payer, DNS, fee, x, d);
      BurnBalance(b1, DNS, fee, x, d);
    }
  }

  lemma ChargeFeeKeepsSound(b: BankState, payer: Account, fee: Coins)
    requires Sound(b) && ValidCoins(fee) && ChargeFee(b, payer, fee).Ok?
    ensures Sound(ChargeFee(b, payer, fee).value)
  {
    if !IsZero(fee) {
      SendKeepsSound(b, payer, DNS, fee);
      BurnKeepsSound(Send(b, payer, DNS, fee).value, DNS, fee);
    }
  }
}
