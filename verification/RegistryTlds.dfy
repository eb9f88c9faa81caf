/**
 Names are trimmed of dots and top-level domains of spaces. What follows from the
 difference: the names that get registered under a label which is not permitted
 itself, exactly which they are, and the permitted labels that no name can use.
 */
module RegistryTlds {
  import opened Bank
  import opened Environment
  import opened Names
  import opened Registry
  import opened RegistryGenesis

  /** Every permitted label is as the TLD normalisation leaves it. */
  ghost predicate NormalTlds(tlds: set<string>) {
    forall t <- tlds :: NormalizeTld(t) == t
  }

  // ---------- a label with a space ----------

  const WEB3 := "web3"
  const WEB3_SPACE := "web3 "
  const SPACED_NAME := "foo.web3 "

  lemma SpacedNameParts()
    ensures NormalizeName(SPACED_NAME) == SPACED_NAME
    ensures SplitDots(SPACED_NAME) == ["foo", WEB3_SPACE]
    ensures NormalizeTld(WEB3_SPACE) == WEB3
  {
    hide SplitDots;
    TrimLaw(SPACED_NAME, IsDot);
    assert SPACED_NAME == "foo" + "." + WEB3_SPACE;
    SplitOfPair("foo", WEB3_SPACE);
    SpacedLabelTrimmed();
  }

  lemma SpacedLabelTrimmed()
    ensures Trim(WEB3_SPACE, IsSpace) == WEB3
  {
    assert WEB3_SPACE[..4] == WEB3;
    assert TrimRight(WEB3_SPACE, IsSpace) == TrimRight(WEB3, IsSpace) == WEB3;
  }

  /** "foo.web3 " is registered as it stands, though only "web3" is permitted. */
  lemma SpacedNameIsRegistered(env: Env, now: nat, r: RegistryState, b: BankState, m: RegistryMsg)
    requires m.CreateDomain? && m.name == SPACED_NAME
    requires WEB3 in r.tlds && WEB3_SPACE !in r.tlds && SPACED_NAME !in r.names
    requires env.parseAddress(m.creator).Some? && env.parseAddress(m.owner).Some?
    requires ChargeFee(b, env.parseAddress(m.creator).value, r.fee).Ok?
    requires m.nsRecords != [] && ValidRecords(env, m.nsRecords)
    ensures
      var c := Create(env, now, r, b, m);
      && c.Ok? && c.value.0.domains[r.nextId].name == SPACED_NAME
      && c.value.0.names == r.names[SPACED_NAME := r.nextId]
      && c.value.0.tlds == r.tlds && SplitDots(SPACED_NAME)[1] !in r.tlds
  {
    hide ChargeFee, ValidRecords, NormalizeName, SplitDots, NormalizeTld;
    SpacedNameParts();
  }

  // ---------- exactly when the label is permitted itself ----------

  /** A lower-case label that passes the check is permitted as it stands if and only if no space surrounds it. */
  lemma PermittedAsItStands(tlds: set<string>, tld: string)
    requires NormalTlds(tlds) && ToLower(tld) == tld && NormalizeTld(tld) in tlds
    ensures tld in tlds <==> Trimmed(tld, IsSpace)
  {
    TrimLaw(tld, IsSpace);
    ToLowerKeepsTrimmed(Trim(tld, IsSpace), IsSpace);
  }

  /** For a registration: the condition is on the name in the message alone. */
  lemma RegisteredTld(env: Env, now: nat, r: RegistryState, b: BankState, m: RegistryMsg)
    requires NormalTlds(r.tlds) && m.CreateDomain? && Create(env, now, r, b, m).Ok?
    ensures
      var parts := SplitDots(NormalizeName(m.name));
      |parts| == 2 && (parts[1] in r.tlds <==> Trimmed(parts[1], IsSpace))
  {
    var name, parts := NormalizeName(m.name), SplitDots(NormalizeName(m.name));
    SplitTwo(name);
    ToLowerTwice(Trim(m.name, IsDot));
    LowerPart(parts[0], parts[1]);
    PermittedAsItStands(r.tlds, parts[1]);
  }

  lemma LowerPart(host: string, tld: string)
    requires ToLower(host + "." + tld) == host + "." + tld
    ensures ToLower(tld) == tld
  {
    var name := host + "." + tld;
    forall i | 0 <= i < |tld| ensures LowerChar(tld[i]) == tld[i] {
      assert name[|host| + 1 + i] == tld[i];
    }
  }

  /** The same for a name that is already registered. */
  lemma RegisteredNameTld(tlds: set<string>, name: string, host: string, tld: string)
    requires NormalTlds(tlds) && RegisteredName(tlds, name) && NameParts(name, host, tld)
    ensures NormalizeTld(tld) in tlds && (tld in tlds <==> Trimmed(tld, IsSpace))
  {
    var h, t :| NameParts(name, h, t) && NormalizeTld(t) in tlds;
    SplitOfPair(h, t);
    SplitOfPair(host, tld);
    LowerPart(host, tld);
    PermittedAsItStands(tlds, tld);
  }

  // ---------- where normal labels come from ----------

  lemma AddPermittedTldKeepsNormal(r: RegistryState, tld: string)
    requires NormalTlds(r.tlds) && AddPermittedTld(r, tld).Ok?
    ensures NormalTlds(AddPermittedTld(r, tld).value.tlds)
  {
    hide NormalizeTld;
    NormalizeTldTwice(tld);
  }

  /** A label can be matched by some name's TLD exactly when it is in that normal form. */
  lemma MatchableTld(r: RegistryState, t: string)
    requires t in r.tlds && t != ""
    ensures (exists x :: IsPermitted(r, x) && NormalizeTld(x) == t) <==> NormalizeTld(t) == t
  {
    if x :| IsPermitted(r, x) && NormalizeTld(x) == t {
      NormalizeTldTwice(x);
    }
    if NormalizeTld(t) == t {
      assert IsPermitted(r, t);
    }
  }

  /** InitGenesis trims the labels of dots only, so it yields normal ones exactly when no space surrounds them. */
  lemma GenesisTlds(g: GenesisState)
    ensures
      NormalTlds(Init(g).tlds) <==>
        forall t <- g.permittedTlds :: Trimmed(NormalizeName(t), IsSpace)
  {
    forall t | t in g.permittedTlds
      ensures NormalizeTld(NormalizeName(t)) == NormalizeName(t) <==> Trimmed(NormalizeName(t), IsSpace)
    {
      var n := NormalizeName(t);
      TrimLaw(n, IsSpace);
      ToLowerTwice(Trim(t, IsDot));
      ToLowerKeepsTrimmed(Trim(n, IsSpace), IsSpace);
    }
    hide NormalizeName, NormalizeTld;
    var tlds := Init(g).tlds;
    assert tlds == LoadedTlds(g.permittedTlds);
    if NormalTlds(tlds) {
      forall t | t in g.permittedTlds ensures Trimmed(NormalizeName(t), IsSpace) {
        if NormalizeName(t) != "" { assert NormalizeName(t) in tlds; }
      }
    }
  }

  /** A genesis that permits "web3 ": Validate accepts it, and no name at all can be registered. */
  lemma SpacedGenesisTld(env: Env, now: nat, b: BankState, m: RegistryMsg)
    requires m.CreateDomain?
    ensures
      var g := GenesisState(map[], [], 0, [WEB3_SPACE]);
      && WellFormedGenesis(g) && Init(g).tlds == {WEB3_SPACE}
      && Create(env, now, Init(g), b, m).Err?
  {
    hide Create, NormalizeName, NormalizeTld, SplitDots;
    var g := GenesisState(map[], [], 0, [WEB3_SPACE]);
    SpacedLabelName();
    SpacedNameParts();
    assert LoadedTlds(g.permittedTlds) == {WEB3_SPACE} by { assert WEB3_SPACE in g.permittedTlds; }
    if Create(env, now, Init(g), b, m).Ok? {
      CreateNeedsPermitted(env, now, Init(g), b, m);
      NormalizeTldTwice(SplitDots(NormalizeName(m.name))[1]);
    }
  }

  lemma SpacedLabelName()
    ensures NormalizeName(WEB3_SPACE) == WEB3_SPACE
  {
    TrimLaw(WEB3_SPACE, IsDot);
  }

  lemma CreateNeedsPermitted(env: Env, now: nat, r: RegistryState, b: BankState, m: RegistryMsg)
    requires m.CreateDomain? && Create(env, now, r, b, m).Ok?
    ensures |SplitDots(NormalizeName(m.name))| == 2 && IsPermitted(r, SplitDots(NormalizeName(m.name))[1])
  {
    hide NormalizeName, SplitDots;
  }
}
