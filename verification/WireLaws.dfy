/**
 What the encoding promises: writing a message and reading it onto another one
 merges the two ("Last One Wins" of the Protocol Buffers Encoding), so that
 reading onto the empty message gives the written one back.
 */
module WireLaws {
  import opened Wrappers
  import opened GoInts
  import opened Varint
  import opened DomainTypes
  import opened WireFormat

  /** Integers are 64-bit and the encoding fits into a Go slice. */
  ghost predicate Encodable(m: WireDomain) {
    m.id < TWO_64 && m.expiration < TWO_64 && |EncodeDomain(m)| < TWO_63
  }

  ghost predicate EncodableRecord(r: WireRecord) {
    |EncodeRecord(r)| < TWO_63
  }

  // ---------- reading one written field ----------

  lemma TagOf(tag: Byte, rest: Bytes)
    requires tag < 128
    ensures ReadVarint([tag] + rest) == Ok((tag, 1))
  {
    assert [tag][1..] == [];
    assert Base128([tag]) == tag;
    ReadsBack([tag], rest);
  }

  lemma ReadsWrittenBytes(tag: Byte, data: Bytes)
    requires tag < 128 && tag % 8 == 2 && |data| < TWO_64
    ensures
      var s := EncodeBytes(tag, data);
      && ReadVarint(s) == Ok((tag, 1))
      && forall num :: BytesField(num, 2, s, 1) == Ok((data, |s|))
  {
    var s := EncodeBytes(tag, data);
    assert s == [tag] + (EncodeVarint(|data|) + data);
    TagOf(tag, EncodeVarint(|data|) + data);
    assert s[1..] == EncodeVarint(|data|) + data;
    VarintRoundTrip(|data|, data);
    var n := |EncodeVarint(|data|)|;
    assert (EncodeVarint(|data|) + data)[n..n + |data|] == data;
  }

  lemma ReadsWrittenNumber(tag: Byte, v: uint64)
    requires tag < 128 && tag % 8 == 0
    ensures
      var s := [tag] + EncodeVarint(v);
      && ReadVarint(s) == Ok((tag, 1))
      && forall num :: NumberField(num, 0, s, 1) == Ok((v, |s|))
  {
    var s := [tag] + EncodeVarint(v);
    TagOf(tag, EncodeVarint(v));
    assert s[1..] == EncodeVarint(v) + [];
    VarintRoundTrip(v, []);
  }

  // ---------- records ----------

  function MergeRecord(m: WireRecord, r: WireRecord): WireRecord {
    NsRecord(if r.name == [] then m.name else r.name, m.ipv4 + r.ipv4, m.ipv6 + r.ipv6)
  }

  lemma RecordName(m: WireRecord, data: Bytes)
    requires |data| < TWO_64
    ensures DecodeRecord(m, EncodeText(0x0a, data)) == Ok(if data == [] then m else m.(name := data))
  {
    hide ReadVarint, ReadBytes;
    if data != [] {
      ReadsWrittenBytes(0x0a, data);
      var s := EncodeBytes(0x0a, data);
      assert s[|s|..] == [];
    }
  }

  /** The addresses of tag 0x12 or 0x1a go to the end of their list. */
  function WithAddresses(m: WireRecord, tag: Byte, list: seq<Bytes>): WireRecord {
    if tag == 0x12 then m.(ipv4 := m.ipv4 + list) else m.(ipv6 := m.ipv6 + list)
  }

  lemma RecordAddress(m: WireRecord, tag: Byte, data: Bytes)
    requires tag == 0x12 || tag == 0x1a
    requires |data| < TWO_64
    ensures DecodeRecord(m, EncodeBytes(tag, data)) == Ok(WithAddresses(m, tag, [data]))
  {
    hide ReadVarint, ReadBytes;
    ReadsWrittenBytes(tag, data);
    var s := EncodeBytes(tag, data);
    assert s[|s|..] == [];
  }

  lemma AddressesAppend(m: WireRecord, tag: Byte, list: seq<Bytes>)
    requires list != []
    ensures WithAddresses(WithAddresses(m, tag, [list[0]]), tag, list[1..]) == WithAddresses(m, tag, list)
  {
    assert m.ipv4 + [list[0]] + list[1..] == m.ipv4 + list;
    assert m.ipv6 + [list[0]] + list[1..] == m.ipv6 + list;
  }

  lemma {:induction false} RecordAddresses(m: WireRecord, tag: Byte, list: seq<Bytes>)
    requires tag == 0x12 || tag == 0x1a
    requires |EncodeTexts(tag, list)| < TWO_63
    ensures DecodeRecord(m, EncodeTexts(tag, list)) == Ok(WithAddresses(m, tag, list))
    decreases list
  {
    if list == [] {
      assert m.ipv4 + list == m.ipv4 && m.ipv6 + list == m.ipv6;
    } else {
      var x, y := EncodeBytes(tag, list[0]), EncodeTexts(tag, list[1..]);
      assert EncodeTexts(tag, list) == x + y && |list[0]| <= |x|;
      var m1, m2 := WithAddresses(m, tag, [list[0]]), WithAddresses(m, tag, list);
      assert DecodeRecord(m, x) == Ok(m1) by { RecordAddress(m, tag, list[0]); }
      assert DecodeRecord(m1, y) == Ok(m2) by {
        RecordAddresses(m1, tag, list[1..]);
        AddressesAppend(m, tag, list);
      }
      assert DecodeRecord(m, x + y) == Ok(m2) by { RecordConcat(m, x, y); }
    }
  }

  lemma RecordMerge(m: WireRecord, r: WireRecord)
    requires EncodableRecord(r)
    ensures DecodeRecord(m, EncodeRecord(r)) == Ok(MergeRecord(m, r))
  {
    var a, b, c := EncodeText(0x0a, r.name), EncodeTexts(0x12, r.ipv4), EncodeTexts(0x1a, r.ipv6);
    var m1 := if r.name == [] then m else m.(name := r.name);
    var m2 := WithAddresses(m1, 0x12, r.ipv4);
    RecordName(m, r.name);
    RecordAddresses(m1, 0x12, r.ipv4);
    RecordAddresses(m2, 0x1a, r.ipv6);
    RecordConcat(m, a, b);
    RecordConcat(m, a + b, c);
  }

  lemma RecordRoundTrip(r: WireRecord)
    requires EncodableRecord(r)
    ensures DecodeRecord(EMPTY_RECORD, EncodeRecord(r)) == Ok(r)
  {
    RecordMerge(EMPTY_RECORD, r);
    assert [] + r.ipv4 == r.ipv4 && [] + r.ipv6 == r.ipv6;
  }

  // ---------- domains ----------

  function MergeDomain(m: WireDomain, d: WireDomain): WireDomain {
    Domain(
      if d.id == 0 then m.id else d.id,
      if d.name == [] then m.name else d.name,
      if d.owner == [] then m.owner else d.owner,
      m.nsRecords + d.nsRecords,
      if d.creator == [] then m.creator else d.creator,
      if d.expiration == 0 then m.expiration else d.expiration)
  }

  lemma DomainNumber(m: WireDomain, tag: Byte, v: uint64)
    requires tag == 0x08 || tag == 0x30
    ensures
      DecodeDomain(m, EncodeNumber(tag, v)) ==
        Ok(if v == 0 then m else if tag == 0x08 then m.(id := v) else m.(expiration := v))
  {
    hide ReadVarint, ReadBytes;
    if v != 0 {
      ReadsWrittenNumber(tag, v);
      var s := [tag] + EncodeVarint(v);
      assert s[|s|..] == [];
    }
  }

  lemma DomainText(m: WireDomain, tag: Byte, data: Bytes)
    requires tag == 0x12 || tag == 0x1a || tag == 0x2a
    requires |data| < TWO_64
    ensures
      DecodeDomain(m, EncodeText(tag, data)) ==
        Ok(if data == [] then m
           else if tag == 0x12 then m.(name := data)
           else if tag == 0x1a then m.(owner := data)
           else m.(creator := data))
  {
    hide ReadVarint, ReadBytes;
    if data != [] {
      ReadsWrittenBytes(tag, data);
      var s := EncodeBytes(tag, data);
      assert s[|s|..] == [];
    }
  }

  lemma OneField(m: WireDomain, s: Bytes, m': WireDomain)
    requires s != [] && DomainField(m, s) == Ok((m', |s|))
    ensures DecodeDomain(m, s) == Ok(m')
  {
    hide DomainField;
    assert s[|s|..] == [];
  }

  lemma DomainRecordData(m: WireDomain, data: Bytes, r: WireRecord)
    requires |data| < TWO_64
    requires DecodeRecord(EMPTY_RECORD, data) == Ok(r)
    ensures DecodeDomain(m, EncodeBytes(0x3a, data)) == Ok(m.(nsRecords := m.nsRecords + [r]))
  {
    hide DecodeRecord, DecodeDomain, ReadVarint, BytesField, Skip, EncodeBytes;
    ReadsWrittenBytes(0x3a, data);
    OneField(m, EncodeBytes(0x3a, data), m.(nsRecords := m.nsRecords + [r]));
  }

  lemma DomainThen(m: WireDomain, m1: WireDomain, m2: WireDomain, x: Bytes, y: Bytes)
    requires DecodeDomain(m, x) == Ok(m1) && DecodeDomain(m1, y) == Ok(m2)
    ensures DecodeDomain(m, x + y) == Ok(m2)
  {
    DomainConcat(m, x, y);
  }

  function WithRecords(m: WireDomain, list: seq<WireRecord>): WireDomain {
    m.(nsRecords := m.nsRecords + list)
  }

  lemma DomainRecord(m: WireDomain, r: WireRecord)
    requires EncodableRecord(r)
    ensures DecodeDomain(m, EncodeBytes(0x3a, EncodeRecord(r))) == Ok(WithRecords(m, [r]))
  {
    RecordRoundTrip(r);
    DomainRecordData(m, EncodeRecord(r), r);
  }

  lemma RecordsAppend(m: WireDomain, list: seq<WireRecord>)
    requires list != []
    ensures WithRecords(WithRecords(m, [list[0]]), list[1..]) == WithRecords(m, list)
  {
    assert m.nsRecords + [list[0]] + list[1..] == m.nsRecords + list;
  }

  lemma {:induction false} DomainRecords(m: WireDomain, list: seq<WireRecord>)
    requires |EncodeRecords(list)| < TWO_63
    ensures DecodeDomain(m, EncodeRecords(list)) == Ok(WithRecords(m, list))
    decreases list
  {
    if list == [] {
      assert m.nsRecords + list == m.nsRecords;
    } else {
      var m1, m2 := WithRecords(m, [list[0]]), WithRecords(m, list);
      DomainRecord(m, list[0]);
      DomainRecords(m1, list[1..]);
      RecordsAppend(m, list);
      DomainThen(m, m1, m2, EncodeBytes(0x3a, EncodeRecord(list[0])), EncodeRecords(list[1..]));
    }
  }

  /** Reading the encoding of d onto m merges d into m. */
  lemma DomainMerge(m: WireDomain, d: WireDomain)
    requires Encodable(d)
    ensures DecodeDomain(m, EncodeDomain(d)) == Ok(MergeDomain(m, d))
  {
    var a, b, c := EncodeNumber(0x08, d.id), EncodeText(0x12, d.name), EncodeText(0x1a, d.owner);
    var e, f, g := EncodeText(0x2a, d.creator), EncodeNumber(0x30, d.expiration), EncodeRecords(d.nsRecords);
    var m1 := if d.id == 0 then m else m.(id := d.id);
    var m2 := if d.name == [] then m1 else m1.(name := d.name);
    var m3 := if d.owner == [] then m2 else m2.(owner := d.owner);
    var m4 := if d.creator == [] then m3 else m3.(creator := d.creator);
    var m5 := if d.expiration == 0 then m4 else m4.(expiration := d.expiration);
    assert DecodeDomain(m, a) == Ok(m1) by { DomainNumber(m, 0x08, d.id); }
    assert DecodeDomain(m1, b) == Ok(m2) by { DomainText(m1, 0x12, d.name); }
    assert DecodeDomain(m2, c) == Ok(m3) by { DomainText(m2, 0x1a, d.owner); }
    assert DecodeDomain(m3, e) == Ok(m4) by { DomainText(m3, 0x2a, d.creator); }
    assert DecodeDomain(m4, f) == Ok(m5) by { DomainNumber(m4, 0x30, d.expiration); }
    DomainRecords(m5, d.nsRecords);
    DomainConcat(m, a, b);
    DomainConcat(m, a + b, c);
    DomainConcat(m, a + b + c, e);
    DomainConcat(m, a + b + c + e, f);
    DomainConcat(m, a + b + c + e + f, g);
  }

  /** Codec round trip. */
  lemma DomainRoundTrip(d: WireDomain)
    requires Encodable(d)
    ensures DecodeDomain(EMPTY_DOMAIN, EncodeDomain(d)) == Ok(d)
  {
    DomainMerge(EMPTY_DOMAIN, d);
    assert [] + d.nsRecords == d.nsRecords;
  }

  /** Hence no two messages share an encoding. */
  lemma EncodeInjective(d: WireDomain, d': WireDomain)
    requires Encodable(d) && Encodable(d')
    requires EncodeDomain(d) == EncodeDomain(d')
    ensures d == d'
  {
    DomainRoundTrip(d);
    DomainRoundTrip(d');
  }
}
