/**
 Unknown fields. A RawField is any field of the wire format, with every varint
 kept as the bytes it was written with and with groups nested to any depth;
 skipDomain consumes exactly such fields, and decoding ignores them.
 */
module RawFields {
  import opened Wrappers
  import opened Varint
  import opened WireFormat

  datatype RawField =
    | Number(tag: Bytes, value: Bytes)
    | Fixed64(tag: Bytes, data: Bytes)
    | Delimited(tag: Bytes, length: Bytes, data: Bytes)
    | Group(tag: Bytes, body: RawFieldList, endTag: Bytes)
    | Fixed32(tag: Bytes, data: Bytes)

  datatype RawFieldList = Nil | Cons(head: RawField, tail: RawFieldList)

  ghost predicate IsTag(t: Bytes, w: nat) {
    IsVarint(t) && WireType(VarintValue(t)) == w
  }

  /** The grammar; as in the generated code, an end tag need not repeat the group's number. */
  ghost predicate WellFormed(f: RawField) {
    match f
    case Number(t, v) => IsTag(t, 0) && IsVarint(v)
    case Fixed64(t, d) => IsTag(t, 1) && |d| == 8
    case Delimited(t, l, d) => IsTag(t, 2) && IsVarint(l) && VarintValue(l) == |d|
    case Group(t, b, e) => IsTag(t, 3) && WellFormedList(b) && IsTag(e, 4)
    case Fixed32(t, d) => IsTag(t, 5) && |d| == 4
  }

  ghost predicate WellFormedList(l: RawFieldList) {
    l.Nil? || (WellFormed(l.head) && WellFormedList(l.tail))
  }

  function FieldBytes(f: RawField): Bytes {
    match f
    case Number(t, v) => t + v
    case Fixed64(t, d) => t + d
    case Delimited(t, l, d) => t + l + d
    case Group(t, b, e) => t + ListBytes(b) + e
    case Fixed32(t, d) => t + d
  }

  function ListBytes(l: RawFieldList): Bytes {
    if l.Nil? then [] else FieldBytes(l.head) + ListBytes(l.tail)
  }

  // ---------- every field of the grammar is skipped ----------

  /** The outcome of skipping a whole field of n bytes inside `depth` groups, given that of the rest. */
  function After(n: nat, rest: Parsed<nat>, depth: nat): Parsed<nat> {
    if depth == 0 then Ok(n)
    else
      var k :- rest;
      Ok(n + k)
  }

  lemma AfterAfter(whole: Parsed<nat>, body: Parsed<nat>, end: Parsed<nat>, rest: Parsed<nat>,
                   depth: nat, i: nat, j: nat, k: nat)
    requires whole == After(i, body, depth + 1)
    requires body == After(j, end, depth + 1)
    requires end == After(k, rest, depth)
    ensures whole == After(i + j + k, rest, depth)
  {
  }

  lemma SkipStep(s: Bytes, depth: nat, n: nat, depth': nat, rest: Bytes)
    requires SkipItem(s, depth) == Ok((n, depth')) && s[n..] == rest
    ensures SkipFrom(s, depth) == After(n, SkipFrom(rest, depth'), depth')
  {
    hide SkipItem, SkipFrom;
    SkipFromStep(s, depth);
  }

  lemma SkipItemOf(t: Bytes, w: nat, payload: Bytes, rest: Bytes, depth: nat)
    requires IsTag(t, w) && w != 3 && w != 4
    requires PayloadLength(w, payload + rest) == Ok(|payload|)
    ensures SkipItem(t + payload + rest, depth) == Ok((|t + payload|, depth))
  {
    assert t + payload + rest == t + (payload + rest);
    ReadsBack(t, payload + rest);
    assert (t + payload + rest)[|t|..] == payload + rest;
  }

  lemma SkipGroupTag(t: Bytes, w: nat, rest: Bytes, depth: nat)
    requires IsTag(t, w) && (w == 3 || (w == 4 && depth > 0))
    ensures
      var depth' := if w == 3 then depth + 1 else depth - 1;
      SkipFrom(t + rest, depth) == After(|t|, SkipFrom(rest, depth'), depth')
  {
    ReadsBack(t, rest);
    assert (t + rest)[|t|..] == rest;
    SkipStep(t + rest, depth, |t|, if w == 3 then depth + 1 else depth - 1, rest);
  }

  /** The bytes of a field after its tag. */
  function Payload(f: RawField): Bytes {
    match f
    case Number(_, v) => v
    case Fixed64(_, d) => d
    case Delimited(_, l, d) => l + d
    case Group(_, b, e) => ListBytes(b) + e
    case Fixed32(_, d) => d
  }

  lemma TagThenPayload(f: RawField)
    ensures FieldBytes(f) == f.tag + Payload(f)
  {
    if f.Group? {
      assert f.tag + ListBytes(f.body) + f.endTag == f.tag + (ListBytes(f.body) + f.endTag);
    } else if f.Delimited? {
      assert f.tag + f.length + f.data == f.tag + (f.length + f.data);
    }
  }

  lemma PayloadLengthOf(f: RawField, rest: Bytes)
    requires WellFormed(f) && !f.Group?
    ensures PayloadLength(WireType(VarintValue(f.tag)), Payload(f) + rest) == Ok(|Payload(f)|)
  {
    if f.Number? {
      ReadsBack(f.value, rest);
    } else if f.Delimited? {
      assert f.length + f.data + rest == f.length + (f.data + rest);
      ReadsBack(f.length, f.data + rest);
    }
  }

  lemma SkipLeaf(f: RawField, rest: Bytes, depth: nat)
    requires WellFormed(f) && !f.Group?
    ensures SkipFrom(FieldBytes(f) + rest, depth) == After(|FieldBytes(f)|, SkipFrom(rest, depth), depth)
  {
    PayloadLengthOf(f, rest);
    TagThenPayload(f);
    SkipItemOf(f.tag, WireType(VarintValue(f.tag)), Payload(f), rest, depth);
    assert (FieldBytes(f) + rest)[|FieldBytes(f)|..] == rest;
    SkipStep(FieldBytes(f) + rest, depth, |FieldBytes(f)|, depth, rest);
  }

  lemma GroupBytes(f: RawField, rest: Bytes)
    requires f.Group?
    ensures FieldBytes(f) + rest == f.tag + (ListBytes(f.body) + (f.endTag + rest))
  {
    hide ListBytes;
  }

  lemma {:induction false} SkipsField(f: RawField, rest: Bytes, depth: nat)
    requires WellFormed(f)
    ensures SkipFrom(FieldBytes(f) + rest, depth) == After(|FieldBytes(f)|, SkipFrom(rest, depth), depth)
    decreases f, 1
  {
    hide SkipFrom, ListBytes;
    if f.Group? {
      SkipsGroup(f.tag, f.body, f.endTag, rest, depth);
      GroupBytes(f, rest);
    } else {
      SkipLeaf(f, rest, depth);
    }
  }

  lemma {:induction false} SkipsGroup(a: Bytes, body: RawFieldList, c: Bytes, rest: Bytes, depth: nat)
    requires IsTag(a, 3) && WellFormedList(body) && IsTag(c, 4)
    ensures
      var b := ListBytes(body);
      SkipFrom(a + (b + (c + rest)), depth) == After(|a| + |b| + |c|, SkipFrom(rest, depth), depth)
    decreases body, 2
  {
    hide SkipFrom, ListBytes;
    var b := ListBytes(body);
    SkipGroupTag(a, 3, b + (c + rest), depth);
    SkipsList(body, c + rest, depth + 1);
    SkipGroupTag(c, 4, rest, depth + 1);
    AfterAfter(SkipFrom(a + (b + (c + rest)), depth), SkipFrom(b + (c + rest), depth + 1),
               SkipFrom(c + rest, depth + 1), SkipFrom(rest, depth), depth, |a|, |b|, |c|);
  }

  lemma {:induction false} SkipsList(l: RawFieldList, rest: Bytes, depth: nat)
    requires WellFormedList(l) && depth > 0
    ensures SkipFrom(ListBytes(l) + rest, depth) == After(|ListBytes(l)|, SkipFrom(rest, depth), depth)
    decreases l, 1
  {
    hide SkipFrom;
    if l.Nil? {
      assert ListBytes(l) + rest == rest;
    } else {
      assert ListBytes(l) + rest == FieldBytes(l.head) + (ListBytes(l.tail) + rest);
      SkipsField(l.head, ListBytes(l.tail) + rest, depth);
      SkipsList(l.tail, rest, depth);
    }
  }

  // ---------- and nothing else is ----------

  /** A tag and a payload whose length skipDomain accepts make a field. */
  lemma LeafWith(t: Bytes, w: nat, payload: Bytes) returns (f: RawField)
    requires IsTag(t, w) && w != 3 && w != 4
    requires PayloadLength(w, payload) == Ok(|payload|)
    ensures WellFormed(f) && FieldBytes(f) == t + payload
  {
    if w == 0 {
      ReadsOnlyVarints(payload);
      assert payload[..|payload|] == payload;
      f := Number(t, payload);
    } else if w == 1 {
      f := Fixed64(t, payload);
    } else if w == 2 {
      var (length, j) := ReadVarint(payload).value;
      ReadsOnlyVarints(payload);
      f := Delimited(t, payload[..j], payload[j..]);
      assert payload[..j] + payload[j..] == payload;
      assert t + payload[..j] + payload[j..] == t + (payload[..j] + payload[j..]);
    } else {
      f := Fixed32(t, payload);
    }
  }

  lemma ReadBytesExact(s: Bytes)
    requires ReadBytes(s).Ok?
    ensures ReadBytes(s[..ReadBytes(s).value.1]) == ReadBytes(s)
  {
    var k := ReadBytes(s).value.1;
    var (length, n) := ReadVarint(s).value;
    ReadsOnlyVarints(s);
    assert s[..k] == s[..n] + s[n..k];
    ReadsBack(s[..n], s[n..k]);
    assert s[..k][n..k] == s[n..k];
  }

  /** The payload is accepted for its own sake, not because of what follows it. */
  lemma PayloadExact(w: nat, s: Bytes)
    requires PayloadLength(w, s).Ok?
    ensures PayloadLength(w, s[..PayloadLength(w, s).value]) == PayloadLength(w, s)
  {
    var k := PayloadLength(w, s).value;
    if w == 0 {
      ReadsOnlyVarints(s);
      assert s[..k] == s[..k] + [];
      ReadsBack(s[..k], []);
    } else if w == 2 {
      ReadBytesExact(s);
    }
  }

  lemma LeafOf(s: Bytes, depth: nat) returns (f: RawField)
    requires SkipItem(s, depth).Ok?
    requires var w := WireType(ReadVarint(s).value.0); w != 3 && w != 4
    ensures WellFormed(f) && FieldBytes(f) == s[..SkipItem(s, depth).value.0]
  {
    hide PayloadLength, VarintLength, Base128;
    var (wire, n) := ReadVarint(s).value;
    ReadsOnlyVarints(s);
    PayloadExact(WireType(wire), s[n..]);
    var k := PayloadLength(WireType(wire), s[n..]).value;
    f := LeafWith(s[..n], WireType(wire), s[n..][..k]);
    assert s[..n] + s[n..][..k] == s[..n + k];
  }

  lemma FirstItem(s: Bytes, depth: nat)
    requires SkipFrom(s, depth).Ok?
    ensures SkipItem(s, depth).Ok?
    ensures
      var (n, depth') := SkipItem(s, depth).value;
      && SkipFrom(s, depth) == After(n, SkipFrom(s[n..], depth'), depth')
      && (depth' != 0 ==> SkipFrom(s[n..], depth').Ok?)
  {
    hide SkipItem, SkipFrom;
    SkipFromStep(s, depth);
  }

  lemma BodyCons(head: RawField, tail: RawFieldList, endTag: Bytes, rest: Bytes)
    ensures FieldBytes(head) + (ListBytes(tail) + endTag + rest) == ListBytes(Cons(head, tail)) + endTag + rest
  {
    hide FieldBytes;
  }

  /** Inside an open group, what skipping consumes is a list of fields and an end tag. */
  lemma {:induction false} BodyOf(s: Bytes, depth: nat)
    returns (body: RawFieldList, endTag: Bytes, rest: Bytes)
    requires depth > 0 && SkipFrom(s, depth).Ok?
    ensures WellFormedList(body) && IsTag(endTag, 4)
    ensures s == ListBytes(body) + endTag + rest && |rest| < |s|
    decreases |s|, 1
  {
    hide SkipFrom, PayloadLength, VarintLength, FieldBytes;
    FirstItem(s, depth);
    var (wire, n) := ReadVarint(s).value;
    if WireType(wire) == 4 {
      ReadsOnlyVarints(s);
      body, endTag, rest := Nil, s[..n], s[n..];
      assert s == s[..n] + s[n..];
      assert ListBytes(body) + endTag == s[..n];
    } else {
      var head, after := HeadOf(s, depth);
      SkipsField(head, after, depth);
      var tail;
      tail, endTag, rest := BodyOf(after, depth);
      body := Cons(head, tail);
      BodyCons(head, tail, endTag, rest);
    }
  }

  /** The field at the head of s, when it is not an end tag, and what follows it. */
  lemma {:induction false} HeadOf(s: Bytes, depth: nat) returns (head: RawField, after: Bytes)
    requires SkipFrom(s, depth).Ok?
    requires ReadVarint(s).Ok? ==> WireType(ReadVarint(s).value.0) != 4
    ensures WellFormed(head) && s == FieldBytes(head) + after && |after| < |s|
    decreases |s|, 0
  {
    hide SkipFrom, VarintLength, ListBytes;
    FirstItem(s, depth);
    var (wire, n) := ReadVarint(s).value;
    if WireType(wire) == 3 {
      ReadsOnlyVarints(s);
      var b, e;
      b, e, after := BodyOf(s[n..], depth + 1);
      head := Group(s[..n], b, e);
      assert s == s[..n] + (ListBytes(b) + e + after);
    } else {
      var k := SkipItem(s, depth).value.0;
      head := LeafOf(s, depth);
      after := s[k..];
      assert s == s[..k] + s[k..];
    }
  }

  lemma FieldOf(s: Bytes) returns (f: RawField)
    requires Skip(s).Ok?
    ensures WellFormed(f) && FieldBytes(f) == s[..Skip(s).value]
  {
    FirstItem(s, 0);
    var after;
    f, after := HeadOf(s, 0);
    SkipsField(f, after, 0);
    assert s[..|FieldBytes(f)|] == FieldBytes(f);
  }

  /** skipDomain succeeds on s with length n exactly when s[..n] is a field of the grammar. */
  lemma SkipIsGrammar(s: Bytes, n: nat)
    requires n <= |s|
    ensures Skip(s) == Ok(n) <==> exists f :: WellFormed(f) && FieldBytes(f) == s[..n]
  {
    if Skip(s) == Ok(n) {
      var f := FieldOf(s);
    }
    if f :| WellFormed(f) && FieldBytes(f) == s[..n] {
      assert s == FieldBytes(f) + s[n..];
      SkipsField(f, s[n..], 0);
    }
  }

  // ---------- unknown fields are invisible ----------

  /** A whole field whose number the messages do not list (for instance the removed ns = 4). */
  ghost predicate IsUnknown(f: RawField, known: set<int>) {
    && WellFormed(f)
    && FieldNumber(VarintValue(f.tag)) > 0
    && FieldNumber(VarintValue(f.tag)) !in known
  }

  const DOMAIN_FIELDS := {1, 2, 3, 5, 6, 7}
  const RECORD_FIELDS := {1, 2, 3}

  lemma TagOfUnknown(f: RawField)
    requires WellFormed(f)
    ensures ReadVarint(FieldBytes(f)) == Ok((VarintValue(f.tag), |f.tag|))
    ensures Skip(FieldBytes(f)) == Ok(|FieldBytes(f)|)
    ensures WireType(VarintValue(f.tag)) != 4
  {
    var s := FieldBytes(f);
    assert s[..|f.tag|] == f.tag;
    assert s == f.tag + s[|f.tag|..];
    ReadsBack(f.tag, s[|f.tag|..]);
    assert s + [] == s;
    SkipsField(f, [], 0);
  }

  /** Between two stretches of fields, an unknown field changes nothing. */
  lemma UnknownFieldInvisible(m: WireDomain, x: Bytes, f: RawField, y: Bytes)
    requires DecodeDomain(m, x).Ok?
    requires IsUnknown(f, DOMAIN_FIELDS)
    ensures DecodeDomain(m, x + FieldBytes(f) + y) == DecodeDomain(m, x + y)
  {
    var s, m' := FieldBytes(f), DecodeDomain(m, x).value;
    TagOfUnknown(f);
    assert DomainField(m', s) == Ok((m', |s|));
    assert s[|s|..] == [];
    DomainConcat(m, x, s);
    DomainConcat(m, x + s, y);
    DomainConcat(m, x, y);
  }

  lemma UnknownFieldInvisibleInRecord(m: WireRecord, x: Bytes, f: RawField, y: Bytes)
    requires DecodeRecord(m, x).Ok?
    requires IsUnknown(f, RECORD_FIELDS)
    ensures DecodeRecord(m, x + FieldBytes(f) + y) == DecodeRecord(m, x + y)
  {
    var s, m' := FieldBytes(f), DecodeRecord(m, x).value;
    TagOfUnknown(f);
    assert RecordField(m', s) == Ok((m', |s|));
    assert s[|s|..] == [];
    RecordConcat(m, x, s);
    RecordConcat(m, x + s, y);
    RecordConcat(m, x, y);
  }
}
