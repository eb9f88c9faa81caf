/**
 The encoding of Domain and NSRecordWithIP as functions on byte strings, and the
 laws of that encoding. Nothing here knows about indices or machine integers;
 DomainPb.dfy proves the generated code against these functions.
 */
module WireFormat {
  import opened Wrappers
  import opened GoInts
  import opened Varint
  import opened DomainTypes

  type WireRecord = NsRecord<Bytes>
  type WireDomain = Domain<Bytes>

  const EMPTY_RECORD: WireRecord := NsRecord([], [], [])
  const EMPTY_DOMAIN: WireDomain := Domain(0, [], [], [], [], 0)

  // ---------- encoding ----------

  /** Tag byte, length and payload. */
  function EncodeBytes(tag: Byte, data: Bytes): Bytes {
    [tag] + EncodeVarint(|data|) + data
  }

  /** proto3: a field with the zero value is not written. */
  function EncodeText(tag: Byte, data: Bytes): Bytes {
    if data == [] then [] else EncodeBytes(tag, data)
  }

  function EncodeNumber(tag: Byte, v: nat): Bytes {
    if v == 0 then [] else [tag] + EncodeVarint(v)
  }

  function EncodeTexts(tag: Byte, list: seq<Bytes>): Bytes {
    if list == [] then [] else EncodeBytes(tag, list[0]) + EncodeTexts(tag, list[1..])
  }

  function EncodeRecord(r: WireRecord): Bytes {
    EncodeText(0x0a, r.name) + EncodeTexts(0x12, r.ipv4) + EncodeTexts(0x1a, r.ipv6)
  }

  function EncodeRecords(list: seq<WireRecord>): Bytes {
    if list == [] then [] else EncodeBytes(0x3a, EncodeRecord(list[0])) + EncodeRecords(list[1..])
  }

  function EncodeDomain(m: WireDomain): Bytes {
    EncodeNumber(0x08, m.id) + EncodeText(0x12, m.name) + EncodeText(0x1a, m.owner)
    + EncodeText(0x2a, m.creator) + EncodeNumber(0x30, m.expiration) + EncodeRecords(m.nsRecords)
  }

  // ---------- decoding ----------

  /** int32(wire >> 3) */
  function FieldNumber(wire: uint64): int {
    var x := (wire / 8) % TWO_32;
    if x < TWO_31 then x else x - TWO_32
  }

  function WireType(wire: uint64): nat {
    wire % 8
  }

  /** A length-delimited payload at the head of s, and the bytes used with its length. */
  function ReadBytes(s: Bytes): (r: Parsed<(Bytes, nat)>)
    ensures r.Ok? ==> 1 <= r.value.1 <= |s| && |r.value.0| < r.value.1
  {
    var (length, n) :- ReadVarint(s);
    if n + length > |s| then Err(Truncated) else Ok((s[n..n + length], n + length))
  }

  /** How many bytes after the tag belong to a value of wire type w (groups apart). */
  function PayloadLength(w: nat, s: Bytes): (r: Parsed<nat>)
    ensures r.Ok? ==> r.value <= |s|
  {
    match w
    case 0 => var (_, n) :- ReadVarint(s); Ok(n)
    case 1 => if |s| < 8 then Err(Truncated) else Ok(8)
    case 2 => var (_, n) :- ReadBytes(s); Ok(n)
    case 5 => if |s| < 4 then Err(Truncated) else Ok(4)
    case _ => Err(IllegalWireType)
  }

  /** One pass of the skip loop: the bytes of a tag with its value, and the new depth. */
  function SkipItem(s: Bytes, depth: nat): (r: Parsed<(nat, nat)>)
    ensures r.Ok? ==> 1 <= r.value.0 <= |s|
  {
    var (wire, n) :- ReadVarint(s);
    match WireType(wire)
    case 3 => Ok((n, depth + 1))
    case 4 => if depth == 0 then Err(UnexpectedEndOfGroup) else Ok((n, depth - 1))
    case w => var k :- PayloadLength(w, s[n..]); Ok((n + k, depth))
  }

  /** Bytes up to the end of the field at the head of s, inside `depth` open groups. */
  function SkipFrom(s: Bytes, depth: nat): (r: Parsed<nat>)
    ensures r.Ok? ==> 1 <= r.value <= |s|
    decreases |s|
  {
    var (n, depth') :- SkipItem(s, depth);
    if depth' == 0 then Ok(n)
    else
      var rest :- SkipFrom(s[n..], depth');
      Ok(n + rest)
  }

  function Skip(s: Bytes): (r: Parsed<nat>)
    ensures r.Ok? ==> 1 <= r.value <= |s|
  {
    SkipFrom(s, 0)
  }

  /** The tag at the head of a message field: number, wire type, bytes used. */
  function ReadTag(s: Bytes): (r: Parsed<(int, nat, nat)>)
    ensures r.Ok? ==> r.value.0 > 0 && r.value.1 != 4 && 1 <= r.value.2 <= |s|
  {
    var (wire, n) :- ReadVarint(s);
    if WireType(wire) == 4 then Err(EndGroupOutsideGroup)
    else if FieldNumber(wire) <= 0 then Err(IllegalTag)
    else Ok((FieldNumber(wire), WireType(wire), n))
  }

  /** A known length-delimited field, whose tag took n bytes of s. */
  function BytesField(num: int, w: nat, s: Bytes, n: nat): (r: Parsed<(Bytes, nat)>)
    requires 1 <= n <= |s|
    ensures r.Ok? ==> n < r.value.1 <= |s| && |r.value.0| < |s|
  {
    if w != 2 then Err(WrongWireType(num))
    else
      var (data, k) :- ReadBytes(s[n..]);
      Ok((data, n + k))
  }

  function NumberField(num: int, w: nat, s: Bytes, n: nat): (r: Parsed<(uint64, nat)>)
    requires 1 <= n <= |s|
    ensures r.Ok? ==> n < r.value.1 <= |s|
  {
    if w != 0 then Err(WrongWireType(num))
    else
      var (v, k) :- ReadVarint(s[n..]);
      Ok((v, n + k))
  }

  /** Applies the first field of s to m; also the bytes that field took. */
  function RecordField(m: WireRecord, s: Bytes): (r: Parsed<(WireRecord, nat)>)
    ensures r.Ok? ==> 1 <= r.value.1 <= |s|
  {
    var (num, w, n) :- ReadTag(s);
    match num
    case 1 => var (d, k) :- BytesField(num, w, s, n); Ok((m.(name := d), k))
    case 2 => var (d, k) :- BytesField(num, w, s, n); Ok((m.(ipv4 := m.ipv4 + [d]), k))
    case 3 => var (d, k) :- BytesField(num, w, s, n); Ok((m.(ipv6 := m.ipv6 + [d]), k))
    case _ => var k :- Skip(s); Ok((m, k))
  }

  /** Unmarshal of s onto the record m. */
  function DecodeRecord(m: WireRecord, s: Bytes): Parsed<WireRecord>
    decreases |s|
  {
    if s == [] then Ok(m)
    else
      var (m', k) :- RecordField(m, s);
      DecodeRecord(m', s[k..])
  }

  function DomainField(m: WireDomain, s: Bytes): (r: Parsed<(WireDomain, nat)>)
    ensures r.Ok? ==> 1 <= r.value.1 <= |s|
  {
    var (num, w, n) :- ReadTag(s);
    match num
    case 1 => var (v, k) :- NumberField(num, w, s, n); Ok((m.(id := v), k))
    case 2 => var (d, k) :- BytesField(num, w, s, n); Ok((m.(name := d), k))
    case 3 => var (d, k) :- BytesField(num, w, s, n); Ok((m.(owner := d), k))
    case 5 => var (d, k) :- BytesField(num, w, s, n); Ok((m.(creator := d), k))
    case 6 => var (v, k) :- NumberField(num, w, s, n); Ok((m.(expiration := v), k))
    case 7 =>
      var (d, k) :- BytesField(num, w, s, n);
      var record :- DecodeRecord(EMPTY_RECORD, d);
      Ok((m.(nsRecords := m.nsRecords + [record]), k))
    case _ => var k :- Skip(s); Ok((m, k))
  }

  /** Unmarshal of s onto the domain m. */
  function DecodeDomain(m: WireDomain, s: Bytes): Parsed<WireDomain>
    decreases |s|
  {
    if s == [] then Ok(m)
    else
      var (m', k) :- DomainField(m, s);
      DecodeDomain(m', s[k..])
  }

  // ---------- a successful parse never looks past the field ----------

  /** One unfolding of SkipFrom, for proofs that keep both functions closed. */
  lemma SkipFromStep(s: Bytes, depth: nat)
    ensures
      SkipFrom(s, depth) ==
        match SkipItem(s, depth)
        case Err(e) => Err(e)
        case Ok((n, depth')) =>
          if depth' == 0 then Ok(n)
          else
            match SkipFrom(s[n..], depth')
            case Err(e) => Err(e)
            case Ok(k) => Ok(n + k)
  {
    hide SkipItem;
  }

  lemma ReadBytesPrefix(x: Bytes, y: Bytes)
    requires ReadBytes(x).Ok?
    ensures ReadBytes(x + y) == ReadBytes(x)
  {
    ReadVarintPrefix(x, y);
    var (length, n) := ReadVarint(x).value;
    assert (x + y)[n..n + length] == x[n..n + length];
  }

  lemma PayloadLengthPrefix(w: nat, x: Bytes, y: Bytes)
    requires PayloadLength(w, x).Ok?
    ensures PayloadLength(w, x + y) == PayloadLength(w, x)
  {
    if w == 0 { ReadVarintPrefix(x, y); }
    if w == 2 { ReadBytesPrefix(x, y); }
  }

  lemma SkipItemPrefix(x: Bytes, y: Bytes, depth: nat)
    requires SkipItem(x, depth).Ok?
    ensures SkipItem(x + y, depth) == SkipItem(x, depth)
  {
    ReadVarintPrefix(x, y);
    var (wire, n) := ReadVarint(x).value;
    var w := WireType(wire);
    if w != 3 && w != 4 {
      assert (x + y)[n..] == x[n..] + y;
      PayloadLengthPrefix(w, x[n..], y);
    }
  }

  lemma {:induction false} SkipFromPrefix(x: Bytes, y: Bytes, depth: nat)
    requires SkipFrom(x, depth).Ok?
    ensures SkipFrom(x + y, depth) == SkipFrom(x, depth)
    decreases |x|
  {
    hide SkipItem;
    SkipItemPrefix(x, y, depth);
    var (n, depth') := SkipItem(x, depth).value;
    if depth' != 0 {
      assert (x + y)[n..] == x[n..] + y;
      SkipFromPrefix(x[n..], y, depth');
    }
  }

  lemma BytesFieldPrefix(num: int, w: nat, x: Bytes, y: Bytes, n: nat)
    requires 1 <= n <= |x| && BytesField(num, w, x, n).Ok?
    ensures BytesField(num, w, x + y, n) == BytesField(num, w, x, n)
  {
    assert (x + y)[n..] == x[n..] + y;
    ReadBytesPrefix(x[n..], y);
  }

  lemma NumberFieldPrefix(num: int, w: nat, x: Bytes, y: Bytes, n: nat)
    requires 1 <= n <= |x| && NumberField(num, w, x, n).Ok?
    ensures NumberField(num, w, x + y, n) == NumberField(num, w, x, n)
  {
    assert (x + y)[n..] == x[n..] + y;
    ReadVarintPrefix(x[n..], y);
  }

  lemma RecordFieldPrefix(m: WireRecord, x: Bytes, y: Bytes)
    requires RecordField(m, x).Ok?
    ensures RecordField(m, x + y) == RecordField(m, x)
  {
    ReadVarintPrefix(x, y);
    var (num, w, n) := ReadTag(x).value;
    if num == 1 || num == 2 || num == 3 {
      BytesFieldPrefix(num, w, x, y, n);
    } else {
      SkipFromPrefix(x, y, 0);
    }
  }

  lemma DomainFieldPrefix(m: WireDomain, x: Bytes, y: Bytes)
    requires DomainField(m, x).Ok?
    ensures DomainField(m, x + y) == DomainField(m, x)
  {
    ReadVarintPrefix(x, y);
    var (num, w, n) := ReadTag(x).value;
    match num
    case 1 => NumberFieldPrefix(num, w, x, y, n);
    case 6 => NumberFieldPrefix(num, w, x, y, n);
    case 2 => BytesFieldPrefix(num, w, x, y, n);
    case 3 => BytesFieldPrefix(num, w, x, y, n);
    case 5 => BytesFieldPrefix(num, w, x, y, n);
    case 7 => BytesFieldPrefix(num, w, x, y, n);
    case _ => SkipFromPrefix(x, y, 0);
  }

  // ---------- concatenation is merge ----------

  lemma {:induction false} RecordConcat(m: WireRecord, x: Bytes, y: Bytes)
    requires DecodeRecord(m, x).Ok?
    ensures DecodeRecord(m, x + y) == DecodeRecord(DecodeRecord(m, x).value, y)
    decreases |x|
  {
    if x == [] {
      assert x + y == y;
    } else {
      RecordFieldPrefix(m, x, y);
      var (m', k) := RecordField(m, x).value;
      assert (x + y)[k..] == x[k..] + y;
      RecordConcat(m', x[k..], y);
    }
  }

  /** Decoding x ++ y is decoding y onto the result of decoding x. */
  lemma {:induction false} DomainConcat(m: WireDomain, x: Bytes, y: Bytes)
    requires DecodeDomain(m, x).Ok?
    ensures DecodeDomain(m, x + y) == DecodeDomain(DecodeDomain(m, x).value, y)
    decreases |x|
  {
    if x == [] {
      assert x + y == y;
    } else {
      DomainFieldPrefix(m, x, y);
      var (m', k) := DomainField(m, x).value;
      assert (x + y)[k..] == x[k..] + y;
      DomainConcat(m', x[k..], y);
    }
  }
}
