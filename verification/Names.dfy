/**
 Domain names and top-level domains as strings: the normalisations of
 x/dnsblockchain and x/dao, and the reserved list. Letters are ASCII, for which
 strings.ToLower is the case rule of section 2.3.3 of RFC 1035.
 */
module Names {

  // ---------- strings ----------

  function LowerChar(c: char): char {
    if 'A' <= c <= 'Z' then (c as int + 32) as char else c
  }

  function ToLower(s: string): (r: string)
    ensures |r| == |s|
    ensures forall i :: 0 <= i < |s| ==> r[i] == LowerChar(s[i])
  {
    seq(|s|, i requires 0 <= i < |s| => LowerChar(s[i]))
  }

  const CAPITALS := "ABCDEFGHIJKLMNOPQRSTUVWXYZ"
  const SMALL := "abcdefghijklmnopqrstuvwxyz"

  /** The case rule: each capital becomes its small letter, and nothing else changes. */
  lemma LowerCase(s: string, i: nat)
    requires i < |s|
    ensures forall k :: 0 <= k < 26 && s[i] == CAPITALS[k] ==> ToLower(s)[i] == SMALL[k]
    ensures s[i] !in CAPITALS ==> ToLower(s)[i] == s[i]
  {
    assert forall k :: 0 <= k < 26 ==> CAPITALS[k] as int == 65 + k && SMALL[k] as int == 97 + k;
    if 'A' <= s[i] <= 'Z' { assert CAPITALS[s[i] as int - 65] == s[i]; }
  }

  predicate IsDot(c: char) { c == '.' }

  /** The ASCII characters that strings.TrimSpace removes. */
  predicate IsSpace(c: char) {
    c == ' ' || c as int == 9 || c as int == 10 || c as int == 11 || c as int == 12 || c as int == 13
  }

  lemma Spaces(c: char)
    ensures IsSpace(c) <==> c in {' ', '\t', '\n', '\r', 11 as char, 12 as char}
  {
  }

  function TrimLeft(s: string, cut: char -> bool): string {
    if s != [] && cut(s[0]) then TrimLeft(s[1..], cut) else s
  }

  function TrimRight(s: string, cut: char -> bool): string {
    if s != [] && cut(s[|s| - 1]) then TrimRight(s[..|s| - 1], cut) else s
  }

  function Trim(s: string, cut: char -> bool): string {
    TrimRight(TrimLeft(s, cut), cut)
  }

  /** strings.Split(s, ".") */
  function SplitDots(s: string): (parts: seq<string>)
    ensures |parts| >= 1
  {
    if s == [] then [[]]
    else
      var rest := SplitDots(s[1..]);
      if IsDot(s[0]) then [[]] + rest else [[s[0]] + rest[0]] + rest[1..]
  }

  /** Names: strings.ToLower(strings.Trim(s, ".")) */
  function NormalizeName(s: string): string {
    ToLower(Trim(s, IsDot))
  }

  /** Top-level domains: strings.ToLower(strings.TrimSpace(s)) */
  function NormalizeTld(s: string): string {
    ToLower(Trim(s, IsSpace))
  }

  // ---------- trimming ----------

  predicate Trimmed(s: string, cut: char -> bool) {
    s == [] || (!cut(s[0]) && !cut(s[|s| - 1]))
  }

  lemma {:induction false} TrimLeftLaw(s: string, cut: char -> bool)
    ensures
      var r := TrimLeft(s, cut);
      && |r| <= |s| && r == s[|s| - |r|..]
      && (r == [] || !cut(r[0]))
  {
    if s != [] && cut(s[0]) { TrimLeftLaw(s[1..], cut); }
  }

  lemma {:induction false} TrimRightLaw(s: string, cut: char -> bool)
    ensures
      var r := TrimRight(s, cut);
      && |r| <= |s| && r == s[..|r|]
      && (r == [] || !cut(r[|r| - 1]))
  {
    if s != [] && cut(s[|s| - 1]) { TrimRightLaw(s[..|s| - 1], cut); }
  }

  /** Trimming yields a trimmed part of the string and leaves trimmed strings alone. */
  lemma TrimLaw(s: string, cut: char -> bool)
    ensures Trimmed(Trim(s, cut), cut)
    ensures Trimmed(s, cut) ==> Trim(s, cut) == s
    ensures forall c :: c in Trim(s, cut) ==> c in s
  {
    TrimLeftLaw(s, cut);
    TrimRightLaw(TrimLeft(s, cut), cut);
  }

  lemma ToLowerKeepsTrimmed(s: string, cut: char -> bool)
    requires Trimmed(s, cut)
    requires forall c :: cut(LowerChar(c)) == cut(c)
    ensures Trimmed(ToLower(s), cut)
  {
  }

  lemma ToLowerTwice(s: string)
    ensures ToLower(ToLower(s)) == ToLower(s)
  {
  }

  lemma NormalizeNameTwice(s: string)
    ensures NormalizeName(NormalizeName(s)) == NormalizeName(s)
    ensures Trimmed(NormalizeName(s), IsDot)
  {
    TrimLaw(s, IsDot);
    ToLowerKeepsTrimmed(Trim(s, IsDot), IsDot);
    TrimLaw(NormalizeName(s), IsDot);
    ToLowerTwice(Trim(s, IsDot));
  }

  lemma NormalizeTldTwice(s: string)
    ensures NormalizeTld(NormalizeTld(s)) == NormalizeTld(s)
  {
    TrimLaw(s, IsSpace);
    ToLowerKeepsTrimmed(Trim(s, IsSpace), IsSpace);
    TrimLaw(NormalizeTld(s), IsSpace);
    ToLowerTwice(Trim(s, IsSpace));
  }

  /** A label without dots is its own normal form as a name once it is lower-case. */
  lemma NameOfTld(s: string)
    requires '.' !in s
    ensures NormalizeName(s) == ToLower(s)
  {
    TrimLaw(s, IsDot);
  }

  // ---------- label.tld ----------

  ghost predicate NoDot(s: string) {
    forall i :: 0 <= i < |s| ==> s[i] != '.'
  }

  lemma {:induction false} SplitOne(s: string)
    ensures |SplitDots(s)| == 1 <==> NoDot(s)
    ensures |SplitDots(s)| == 1 ==> SplitDots(s)[0] == s
  {
    if s != [] {
      SplitOne(s[1..]);
      if NoDot(s) {
        assert NoDot(s[1..]);
      } else if !IsDot(s[0]) {
        assert !NoDot(s[1..]) by {
          var i :| 0 <= i < |s| && s[i] == '.';
          assert s[1..][i - 1] == '.';
        }
      }
    }
  }

  lemma {:induction false} SplitOfPair(a: string, b: string)
    requires NoDot(a) && NoDot(b)
    ensures SplitDots(a + "." + b) == [a, b]
  {
    var s := a + "." + b;
    if a == [] {
      assert s[1..] == b;
      SplitOne(b);
    } else {
      assert s[1..] == a[1..] + "." + b;
      SplitOfPair(a[1..], b);
      assert [a[0]] + a[1..] == a;
    }
  }

  lemma {:induction false} SplitTwo(s: string)
    requires |SplitDots(s)| == 2
    ensures
      var p := SplitDots(s);
      s == p[0] + "." + p[1] && NoDot(p[0]) && NoDot(p[1])
  {
    if IsDot(s[0]) {
      SplitOne(s[1..]);
      assert s == [] + "." + s[1..];
    } else {
      SplitTwo(s[1..]);
      var p := SplitDots(s[1..]);
      assert s == [s[0]] + s[1..];
      assert [s[0]] + (p[0] + "." + p[1]) == [s[0]] + p[0] + "." + p[1];
    }
  }

  // ---------- the reserved list ----------

  /** x/dnsblockchain/types/reserved_tlds.go; the special-use names are those of section 6 of RFC 6761. */
  const RESERVED_TLDS: set<string> := {
    "com", "org", "net", "gov", "edu", "mil", "int", "info", "biz", "name", "pro", "aero", "coop",
    "mobi", "cat", "jobs", "tel", "asia", "xyz", "club", "site", "online", "tech", "store", "app",
    "io", "co", "us", "uk", "de", "jp", "cn", "in", "br", "ca", "au", "fr", "ru", "it", "es", "mx",
    "ch", "nl", "se", "no", "fi", "dk", "pl", "ar", "at", "be", "kr", "sg", "za", "academy",
    "agency", "accountant", "ai", "bitcoin", "blockchain", "camera", "coffee", "company",
    "computer", "construction", "contact", "cool", "credit", "cruise", "dance", "data", "design",
    "diamond", "digital", "direct", "directory", "discount", "doctor", "dog", "domains", "email",
    "energy", "engineer", "enterprises", "equipment", "estate", "events", "expert", "express",
    "farm", "fashion", "finance", "fitness", "flights", "flowers", "foundation", "fund",
    "furniture", "futbol", "gallery", "gifts", "glass", "global", "graphics", "gratis", "green",
    "gripe", "guide", "guru", "health", "hockey", "holdings", "holiday", "home", "hospital",
    "hotel", "house", "immobilien", "industries", "institute", "insure", "international",
    "investments", "jewelry", "kitchen", "land", "lawyer", "lease", "legal", "life", "lighting",
    "limited", "limo", "link", "living", "loans", "london", "ltd", "luxury", "management",
    "marketing", "media", "medical", "men", "money", "movie", "music", "network", "news", "ninja",
    "partners", "example", "invalid", "local", "localhost", "test", "arpa"
  }

  predicate IsReservedTld(tld: string) {
    NormalizeName(tld) in RESERVED_TLDS
  }

  /** The special-use names are reserved in any case and with any dots around them. */
  lemma SpecialUseReserved(tld: string)
    requires NormalizeName(tld) in {"example", "invalid", "local", "localhost", "test", "arpa"}
    ensures IsReservedTld(tld)
  {
    hide NormalizeName;
  }

  // ---------- the proposal's own check ----------

  predicate IsAlphanumeric(c: char) {
    'a' <= c <= 'z' || 'A' <= c <= 'Z' || '0' <= c <= '9'
  }

  /** tldRegexp: alphanumeric at both ends, alphanumerics and hyphens between, at most 63 in all. */
  predicate MatchesTldRegexp(s: string) {
    && 1 <= |s| <= 63
    && IsAlphanumeric(s[0]) && IsAlphanumeric(s[|s| - 1])
    && forall c <- s :: IsAlphanumeric(c) || c == '-'
  }

  /** In other words: letters, digits and hyphens, no hyphen at an end, at most 63. */
  lemma RegexpLabels(s: string)
    ensures
      MatchesTldRegexp(s) <==>
        && 1 <= |s| <= 63 && (forall c <- s :: IsAlphanumeric(c) || c == '-')
        && s[0] != '-' && s[|s| - 1] != '-'
  {
    if 1 <= |s| && forall c <- s :: IsAlphanumeric(c) || c == '-' {
      assert s[0] in s && s[|s| - 1] in s;
    }
  }

  /** On every proposed label the two normalisations agree, and only change case. */
  lemma NormalizersAgree(s: string)
    requires MatchesTldRegexp(s)
    ensures NormalizeTld(s) == ToLower(s) && NormalizeName(s) == ToLower(s)
    ensures NormalizeTld(ToLower(s)) == ToLower(s) && NormalizeName(ToLower(s)) == ToLower(s)
    ensures ToLower(s) != [] && '.' !in ToLower(s)
  {
    TrimLaw(s, IsSpace);
    TrimLaw(s, IsDot);
    NormalizeNameTwice(s);
    NormalizeTldTwice(s);
    var low := ToLower(s);
    forall i | 0 <= i < |low| ensures low[i] != '.' {
      assert s[i] in s;
    }
  }
}
