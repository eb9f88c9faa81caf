/**
 A message is its list of fields: what decoding does with each of them, whatever
 varints it is written with, and the list that encoding writes.
 */
module WireFields {
  import opened Wrappers
  import opened GoInts
  import opened Varint
  import opened WireFormat
  import opened WireLaws
  import opened RawFields

  // ---------- tags ----------

  /** A tag's number is what stands above its three low bits, as a signed number of 32 bits. */
  lemma TagParts(wire: uint64, high: nat, number: nat, w: nat)
    requires w < 8 && number < 0x1_0000_0000 && wire == (high * 0x1_0000_0000 + number) * 8 + w
    ensures WireType(wire) == w
    ensures FieldNumber(wire) == if number < 0x8000_0000 then number else number - 0x1_0000_0000
  {
    var x := high * 0x1_0000_0000 + number;
    assert wire / 8 == x;
    assert x % TWO_32 == number by { ModOfSum(high, number); }
  }

  lemma ModOfSum(high: nat, number: nat)
    requires number < TWO_32
    ensures (high * TWO_32 + number) % TWO_32 == number
  {
    var x := high * TWO_32 + number;
    assert x == (x / TWO_32) * TWO_32 + x % TWO_32;
  }

  // ---------- the last value wins, also an empty one ----------

  lemma WrittenText(m: WireDomain, tag: Byte, data: Bytes)
    requires tag == 0x12 || tag == 0x1a || tag == 0x2a
    requires |data| < TWO_64
    ensures
      DecodeDomain(m, EncodeBytes(tag, data)) ==
        Ok(if tag == 0x12 then m.(name := data)
           else if tag == 0x1a then m.(owner := data)
           else m.(creator := data))
  {
    hide ReadVarint, BytesField, EncodeBytes;
    ReadsWrittenBytes(tag, data);
    OneField(m, EncodeBytes(tag, data),
             if tag == 0x12 then m.(name := data)
             else if tag == 0x1a then m.(owner := data)
             else m.(creator := data));
  }

  lemma WrittenNumber(m: WireDomain, tag: Byte, v: uint64)
    requires tag == 0x08 || tag == 0x30
    ensures
      DecodeDomain(m, [tag] + EncodeVarint(v)) == Ok(if tag == 0x08 then m.(id := v) else m.(expiration := v))
  {
    hide ReadVarint, NumberField, EncodeVarint;
    ReadsWrittenNumber(tag, v);
    OneField(m, [tag] + EncodeVarint(v), if tag == 0x08 then m.(id := v) else m.(expiration := v));
  }

  lemma WrittenRecordName(m: WireRecord, data: Bytes)
    requires |data| < TWO_64
    ensures DecodeRecord(m, EncodeBytes(0x0a, data)) == Ok(m.(name := data))
  {
    hide ReadVarint, ReadBytes;
    ReadsWrittenBytes(0x0a, data);
    var s := EncodeBytes(0x0a, data);
    assert s[|s|..] == [];
  }

  /** Whatever came before, a name field at the end is the name, be it empty. */
  lemma LastNameWins(m: WireDomain, x: Bytes, data: Bytes)
    requires DecodeDomain(m, x).Ok? && |data| < TWO_64
    ensures DecodeDomain(m, x + EncodeBytes(0x12, data)) == Ok(DecodeDomain(m, x).value.(name := data))
  {
    hide DecodeDomain, EncodeBytes;
    DomainConcat(m, x, EncodeBytes(0x12, data));
    WrittenText(DecodeDomain(m, x).value, 0x12, data);
  }

  // ---------- one field ----------

  function FieldNo(f: RawField): int {
    FieldNumber(VarintValue(f.tag))
  }

  /** What a whole field does to a domain. */
  function ApplyDomain(m: WireDomain, f: RawField): Parsed<WireDomain> {
    match FieldNo(f)
    case 1 => if f.Number? then Ok(m.(id := VarintValue(f.value))) else Err(WrongWireType(1))
    case 2 => if f.Delimited? then Ok(m.(name := f.data)) else Err(WrongWireType(2))
    case 3 => if f.Delimited? then Ok(m.(owner := f.data)) else Err(WrongWireType(3))
    case 5 => if f.Delimited? then Ok(m.(creator := f.data)) else Err(WrongWireType(5))
    case 6 => if f.Number? then Ok(m.(expiration := VarintValue(f.value))) else Err(WrongWireType(6))
    case 7 =>
      if f.Delimited? then
        var record :- DecodeRecord(EMPTY_RECORD, f.data);
        Ok(m.(nsRecords := m.nsRecords + [record]))
      else Err(WrongWireType(7))
    case n => if n <= 0 then Err(IllegalTag) else Ok(m)
  }

  function ApplyRecord(m: WireRecord, f: RawField): Parsed<WireRecord> {
    match FieldNo(f)
    case 1 => if f.Delimited? then Ok(m.(name := f.data)) else Err(WrongWireType(1))
    case 2 => if f.Delimited? then Ok(m.(ipv4 := m.ipv4 + [f.data])) else Err(WrongWireType(2))
    case 3 => if f.Delimited? then Ok(m.(ipv6 := m.ipv6 + [f.data])) else Err(WrongWireType(3))
    case n => if n <= 0 then Err(IllegalTag) else Ok(m)
  }

  function FoldDomain(m: WireDomain, l: RawFieldList): Parsed<WireDomain>
    decreases l
  {
    if l.Nil? then Ok(m)
    else
      var m' :- ApplyDomain(m, l.head);
      FoldDomain(m', l.tail)
  }

  function FoldRecord(m: WireRecord, l: RawFieldList): Parsed<WireRecord>
    decreases l
  {
    if l.Nil? then Ok(m)
    else
      var m' :- ApplyRecord(m, l.head);
      FoldRecord(m', l.tail)
  }

  lemma TagRead(f: RawField, rest: Bytes)
    requires WellFormed(f)
    ensures ReadVarint(FieldBytes(f) + rest) == Ok((VarintValue(f.tag), |f.tag|))
    ensures (FieldBytes(f) + rest)[|f.tag|..] == Payload(f) + rest
    ensures WireType(VarintValue(f.tag)) != 4
    ensures WireType(VarintValue(f.tag)) == 0 <==> f.Number?
    ensures WireType(VarintValue(f.tag)) == 2 <==> f.Delimited?
    ensures 1 <= |f.tag| <= |FieldBytes(f)|
  {
    hide FieldBytes, Payload, ListBytes;
    TagThenPayload(f);
    assert FieldBytes(f) + rest == f.tag + (Payload(f) + rest);
    ReadsBack(f.tag, Payload(f) + rest);
    assert f.Group? ==> WellFormedList(f.body);
  }

  lemma DelimitedRead(length: Bytes, data: Bytes, rest: Bytes)
    requires IsVarint(length) && VarintValue(length) == |data|
    ensures ReadBytes(length + data + rest) == Ok((data, |length| + |data|))
  {
    hide IsVarint, VarintValue, ReadVarint;
    var s := length + (data + rest);
    assert length + data + rest == s;
    ReadsBack(length, data + rest);
    assert s[|length|..|length| + |data|] == data;
  }

  lemma BytesRead(f: RawField, rest: Bytes, num: int)
    requires WellFormed(f)
    ensures
      BytesField(num, WireType(VarintValue(f.tag)), FieldBytes(f) + rest, |f.tag|) ==
        if f.Delimited? then Ok((f.data, |FieldBytes(f)|)) else Err(WrongWireType(num))
  {
    hide ReadBytes, VarintValue, WireType, IsVarint;
    TagRead(f, rest);
    if f.Delimited? { DelimitedRead(f.length, f.data, rest); }
  }

  lemma NumberRead(f: RawField, rest: Bytes, num: int)
    requires WellFormed(f)
    ensures
      NumberField(num, WireType(VarintValue(f.tag)), FieldBytes(f) + rest, |f.tag|) ==
        if f.Number? then Ok((VarintValue(f.value), |FieldBytes(f)|)) else Err(WrongWireType(num))
  {
    TagRead(f, rest);
    if f.Number? { ReadsBack(f.value, rest); }
  }

  function WithLength<T>(r: Parsed<T>, n: nat): Parsed<(T, nat)> {
    var v :- r;
    Ok((v, n))
  }

  /** Every whole field is applied, and only its own bytes are used. */
  lemma FieldApplied(m: WireDomain, f: RawField, rest: Bytes)
    requires WellFormed(f)
    ensures DomainField(m, FieldBytes(f) + rest) == WithLength(ApplyDomain(m, f), |FieldBytes(f)|)
  {
    hide ReadVarint, BytesField, NumberField, SkipFrom, FieldBytes, WellFormed, FieldNumber, WireType, DecodeRecord;
    TagRead(f, rest);
    var num := FieldNo(f);
    if num == 1 || num == 6 {
      NumberRead(f, rest, num);
    } else if num == 2 || num == 3 || num == 5 || num == 7 {
      BytesRead(f, rest, num);
    } else if num > 0 {
      SkipsField(f, rest, 0);
    }
  }

  lemma RecordFieldApplied(m: WireRecord, f: RawField, rest: Bytes)
    requires WellFormed(f)
    ensures RecordField(m, FieldBytes(f) + rest) == WithLength(ApplyRecord(m, f), |FieldBytes(f)|)
  {
    hide ReadVarint, BytesField, NumberField, SkipFrom, FieldBytes, WellFormed, FieldNumber, WireType;
    TagRead(f, rest);
    var num := FieldNo(f);
    if num == 1 || num == 2 || num == 3 {
      BytesRead(f, rest, num);
    } else if num > 0 {
      SkipsField(f, rest, 0);
    }
  }

  // ---------- a message ----------

  lemma {:induction false} DecodeIsFold(m: WireDomain, l: RawFieldList)
    requires WellFormedList(l)
    ensures DecodeDomain(m, ListBytes(l)) == FoldDomain(m, l)
    decreases l
  {
    hide DomainField, ApplyDomain, FieldBytes, WellFormed;
    if l.Cons? {
      var f, rest := l.head, ListBytes(l.tail);
      TagRead(f, rest);
      FieldApplied(m, f, rest);
      assert (FieldBytes(f) + rest)[|FieldBytes(f)|..] == rest;
      if ApplyDomain(m, f).Ok? { DecodeIsFold(ApplyDomain(m, f).value, l.tail); }
    }
  }

  lemma {:induction false} DecodeRecordIsFold(m: WireRecord, l: RawFieldList)
    requires WellFormedList(l)
    ensures DecodeRecord(m, ListBytes(l)) == FoldRecord(m, l)
    decreases l
  {
    hide RecordField, ApplyRecord, FieldBytes, WellFormed;
    if l.Cons? {
      var f, rest := l.head, ListBytes(l.tail);
      TagRead(f, rest);
      RecordFieldApplied(m, f, rest);
      assert (FieldBytes(f) + rest)[|FieldBytes(f)|..] == rest;
      if ApplyRecord(m, f).Ok? { DecodeRecordIsFold(ApplyRecord(m, f).value, l.tail); }
    }
  }

  /** A known field that is accepted is as long as skipping says. */
  lemma AcceptedIsSkipped(m: WireDomain, s: Bytes)
    requires DomainField(m, s).Ok?
    ensures Skip(s) == Ok(DomainField(m, s).value.1)
  {
    hide DecodeRecord;
  }

  lemma AcceptedRecordFieldIsSkipped(m: WireRecord, s: Bytes)
    requires RecordField(m, s).Ok?
    ensures Skip(s) == Ok(RecordField(m, s).value.1)
  {
  }

  lemma {:induction false} FieldsOf(m: WireDomain, s: Bytes) returns (l: RawFieldList)
    requires DecodeDomain(m, s).Ok?
    ensures WellFormedList(l) && ListBytes(l) == s
    decreases |s|
  {
    hide DomainField, Skip, FieldBytes, WellFormed;
    if s == [] {
      l := Nil;
    } else {
      var (m', k) := DomainField(m, s).value;
      AcceptedIsSkipped(m, s);
      var f := FieldOf(s);
      var tail := FieldsOf(m', s[k..]);
      l := Cons(f, tail);
      assert s == s[..k] + s[k..];
    }
  }

  lemma {:induction false} RecordFieldsOf(m: WireRecord, s: Bytes) returns (l: RawFieldList)
    requires DecodeRecord(m, s).Ok?
    ensures WellFormedList(l) && ListBytes(l) == s
    decreases |s|
  {
    hide RecordField, Skip, FieldBytes, WellFormed;
    if s == [] {
      l := Nil;
    } else {
      var (m', k) := RecordField(m, s).value;
      AcceptedRecordFieldIsSkipped(m, s);
      var f := FieldOf(s);
      var tail := RecordFieldsOf(m', s[k..]);
      l := Cons(f, tail);
      assert s == s[..k] + s[k..];
    }
  }

  /** The bytes are accepted if and only if they are whole fields that all apply, and with that result. */
  lemma DecodesExactly(m: WireDomain, s: Bytes, m': WireDomain)
    ensures
      DecodeDomain(m, s) == Ok(m') <==>
        exists l :: WellFormedList(l) && ListBytes(l) == s && FoldDomain(m, l) == Ok(m')
  {
    hide DecodeDomain, FoldDomain, ListBytes, WellFormedList;
    if DecodeDomain(m, s) == Ok(m') {
      var l := FieldsOf(m, s);
      DecodeIsFold(m, l);
    }
    if l :| WellFormedList(l) && ListBytes(l) == s && FoldDomain(m, l) == Ok(m') {
      DecodeIsFold(m, l);
    }
  }

  lemma DecodesRecordExactly(m: WireRecord, s: Bytes, m': WireRecord)
    ensures
      DecodeRecord(m, s) == Ok(m') <==>
        exists l :: WellFormedList(l) && ListBytes(l) == s && FoldRecord(m, l) == Ok(m')
  {
    hide DecodeRecord, FoldRecord, ListBytes, WellFormedList;
    if DecodeRecord(m, s) == Ok(m') {
      var l := RecordFieldsOf(m, s);
      DecodeRecordIsFold(m, l);
    }
    if l :| WellFormedList(l) && ListBytes(l) == s && FoldRecord(m, l) == Ok(m') {
      DecodeRecordIsFold(m, l);
    }
  }

  /** An end tag where a field should start is an error, in both messages. */
  lemma EndTagIsRefused(m: WireDomain, r: WireRecord, t: Bytes, rest: Bytes)
    requires IsTag(t, 4)
    ensures DecodeDomain(m, t + rest) == Err(EndGroupOutsideGroup)
    ensures DecodeRecord(r, t + rest) == Err(EndGroupOutsideGroup)
  {
    hide VarintValue;
    ReadsBack(t, rest);
    assert t + rest != [];
  }

  // ---------- what encoding writes ----------

  /** Minimal varints, and no zero value but that of a nested message. */
  ghost predicate Canonical(f: RawField) {
    match f
    case Number(_, v) => VarintValue(v) != 0 && v == EncodeVarint(VarintValue(v))
    case Delimited(_, n, d) => n == EncodeVarint(|d|) && (d != [] || FieldNo(f) == 7)
    case _ => false
  }

  /** Canonical fields whose numbers never go down and start at `from`. */
  ghost predicate InOrder(l: RawFieldList, from: int) {
    l.Nil? || (Canonical(l.head) && from <= FieldNo(l.head) && InOrder(l.tail, FieldNo(l.head)))
  }

  function ThenText(tag: Byte, data: Bytes, l: RawFieldList): RawFieldList {
    if data == [] then l else Cons(Delimited([tag], EncodeVarint(|data|), data), l)
  }

  function ThenNumber(tag: Byte, v: nat, l: RawFieldList): RawFieldList {
    if v == 0 then l else Cons(Number([tag], EncodeVarint(v)), l)
  }

  function RecordFields(list: seq<WireRecord>): RawFieldList {
    if list == [] then Nil
    else
      var data := EncodeRecord(list[0]);
      Cons(Delimited([0x3a], EncodeVarint(|data|), data), RecordFields(list[1..]))
  }

  lemma OneByteTag(tag: Byte)
    requires tag < 128
    ensures IsVarint([tag]) && VarintValue([tag]) == tag
    ensures IsTag([tag], tag % 8) && FieldNumber(VarintValue([tag])) == tag / 8
  {
    assert [tag][1..] == [];
    assert Base128([tag]) == tag;
  }

  ghost predicate IsWritten(l: RawFieldList, s: Bytes, from: int) {
    WellFormedList(l) && ListBytes(l) == s && InOrder(l, from)
  }

  lemma WritesText(tag: Byte, data: Bytes, l: RawFieldList, s: Bytes, from: int)
    requires tag < 128 && tag % 8 == 2 && |data| < TWO_64 && IsWritten(l, s, from) && from >= tag / 8
    ensures IsWritten(ThenText(tag, data, l), EncodeText(tag, data) + s, tag / 8)
  {
    OneByteTag(tag);
    VarintRoundTrip(|data|, []);
    InOrderFrom(l, from, tag / 8);
    if data == [] { assert EncodeText(tag, data) + s == s; }
  }

  lemma WritesNumber(tag: Byte, v: uint64, l: RawFieldList, s: Bytes, from: int)
    requires tag < 128 && tag % 8 == 0 && IsWritten(l, s, from) && from >= tag / 8
    ensures IsWritten(ThenNumber(tag, v, l), EncodeNumber(tag, v) + s, tag / 8)
  {
    OneByteTag(tag);
    VarintRoundTrip(v, []);
    InOrderFrom(l, from, tag / 8);
    if v == 0 { assert EncodeNumber(tag, v) + s == s; }
  }

  lemma InOrderFrom(l: RawFieldList, from: int, lower: int)
    requires InOrder(l, from) && lower <= from
    ensures InOrder(l, lower)
  {
  }

  lemma {:induction false} WritesRecords(list: seq<WireRecord>)
    requires |EncodeRecords(list)| < TWO_63
    ensures IsWritten(RecordFields(list), EncodeRecords(list), 7)
  {
    if list != [] {
      var data := EncodeRecord(list[0]);
      assert |data| <= |EncodeBytes(0x3a, data)|;
      OneByteTag(0x3a);
      VarintRoundTrip(|data|, []);
      WritesRecords(list[1..]);
    }
  }

  /** Encoding writes whole fields by ascending number, each in its canonical form. */
  lemma WrittenFields(d: WireDomain) returns (l: RawFieldList)
    requires Encodable(d)
    ensures WellFormedList(l) && ListBytes(l) == EncodeDomain(d) && InOrder(l, 1)
  {
    hide IsWritten, EncodeText, EncodeNumber, EncodeRecords, ThenText, ThenNumber, RecordFields;
    SmallTexts(d);
    var l7, s7 := RecordFields(d.nsRecords), EncodeRecords(d.nsRecords);
    WritesRecords(d.nsRecords);
    var l6, s6 := ThenNumber(0x30, d.expiration, l7), EncodeNumber(0x30, d.expiration) + s7;
    WritesNumber(0x30, d.expiration, l7, s7, 7);
    var l5, s5 := ThenText(0x2a, d.creator, l6), EncodeText(0x2a, d.creator) + s6;
    WritesText(0x2a, d.creator, l6, s6, 6);
    var l3, s3 := ThenText(0x1a, d.owner, l5), EncodeText(0x1a, d.owner) + s5;
    WritesText(0x1a, d.owner, l5, s5, 5);
    var l2, s2 := ThenText(0x12, d.name, l3), EncodeText(0x12, d.name) + s3;
    WritesText(0x12, d.name, l3, s3, 3);
    l := ThenNumber(0x08, d.id, l2);
    WritesNumber(0x08, d.id, l2, s2, 2);
    assert EncodeDomain(d) == EncodeNumber(0x08, d.id) + s2;
    WrittenIs(l, EncodeDomain(d), 1);
  }

  function AddressFields(tag: Byte, list: seq<Bytes>, l: RawFieldList): RawFieldList {
    if list == [] then l
    else Cons(Delimited([tag], EncodeVarint(|list[0]|), list[0]), AddressFields(tag, list[1..], l))
  }

  /** As InOrder, but for a record, whose lists may hold empty addresses. */
  ghost predicate RecordInOrder(l: RawFieldList, from: int) {
    l.Nil? ||
    (&& l.head.Delimited? && l.head.length == EncodeVarint(|l.head.data|)
     && (FieldNo(l.head) == 1 ==> l.head.data != [])
     && from <= FieldNo(l.head) <= 3 && RecordInOrder(l.tail, FieldNo(l.head)))
  }

  ghost predicate IsWrittenRecord(l: RawFieldList, s: Bytes, from: int) {
    WellFormedList(l) && ListBytes(l) == s && RecordInOrder(l, from)
  }

  lemma {:induction false} WritesAddresses(tag: Byte, list: seq<Bytes>, l: RawFieldList, s: Bytes, from: int)
    requires tag == 0x12 || tag == 0x1a
    requires |EncodeTexts(tag, list)| < TWO_63 && IsWrittenRecord(l, s, from) && from >= tag / 8
    ensures IsWrittenRecord(AddressFields(tag, list, l), EncodeTexts(tag, list) + s, tag / 8)
    decreases |list|
  {
    OneByteTag(tag);
    if list == [] {
      RecordInOrderFrom(l, from, tag / 8);
      assert EncodeTexts(tag, list) + s == s;
    } else {
      assert |list[0]| <= |EncodeBytes(tag, list[0])|;
      VarintRoundTrip(|list[0]|, []);
      WritesAddresses(tag, list[1..], l, s, from);
      var x, y := EncodeBytes(tag, list[0]), EncodeTexts(tag, list[1..]);
      assert x + y + s == x + (y + s);
    }
  }

  lemma RecordInOrderFrom(l: RawFieldList, from: int, lower: int)
    requires RecordInOrder(l, from) && lower <= from
    ensures RecordInOrder(l, lower)
  {
  }

  /** A record is written as its name, its addresses of the first kind, and those of the second. */
  lemma WrittenRecordFields(r: WireRecord) returns (l: RawFieldList)
    requires EncodableRecord(r)
    ensures WellFormedList(l) && ListBytes(l) == EncodeRecord(r) && RecordInOrder(l, 1)
  {
    hide EncodeTexts, AddressFields;
    var l3 := AddressFields(0x1a, r.ipv6, Nil);
    var s2 := EncodeTexts(0x12, r.ipv4) + (EncodeTexts(0x1a, r.ipv6) + []);
    WritesAddresses(0x1a, r.ipv6, Nil, [], 3);
    var l2 := AddressFields(0x12, r.ipv4, l3);
    WritesAddresses(0x12, r.ipv4, l3, EncodeTexts(0x1a, r.ipv6) + [], 3);
    l := ThenText(0x0a, r.name, l2);
    OneByteTag(0x0a);
    assert EncodeRecord(r) == EncodeText(0x0a, r.name) + s2;
    if r.name == [] {
      RecordInOrderFrom(l2, 2, 1);
      assert EncodeText(0x0a, r.name) + s2 == s2;
    } else {
      assert |r.name| <= |EncodeText(0x0a, r.name)|;
      VarintRoundTrip(|r.name|, []);
    }
  }

  lemma WrittenIs(l: RawFieldList, s: Bytes, from: int)
    requires IsWritten(l, s, from)
    ensures WellFormedList(l) && ListBytes(l) == s && InOrder(l, from)
  {
  }

  lemma SmallTexts(d: WireDomain)
    requires Encodable(d)
    ensures |d.name| < TWO_63 && |d.owner| < TWO_63 && |d.creator| < TWO_63 && |EncodeRecords(d.nsRecords)| < TWO_63
  {
    hide EncodeVarint, EncodeRecords, EncodeNumber;
    assert |d.name| <= |EncodeText(0x12, d.name)|;
    assert |d.owner| <= |EncodeText(0x1a, d.owner)|;
    assert |d.creator| <= |EncodeText(0x2a, d.creator)|;
  }
}
