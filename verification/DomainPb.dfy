/**
 The generated code of x/dnsblockchain/types/domain.pb.go: message objects whose
 fields are assigned one by one, a printer that fills a buffer from its end to
 its start, and parsers over an index. Go's int is 64 bits wide and wraps.
 */
module DomainPb {
  import opened Wrappers
  import opened GoInts
  import opened Varint
  import opened WireFormat
  import opened WireLaws
  import Types = DomainTypes

  // ---------- writing ----------

  /** The length and the tag in front of a payload that is already in dAtA[at..]. */
  method PutHeader(dAtA: array<Byte>, at: nat, tag: Byte, length: nat) returns (j: nat)
    requires length < TWO_64
    requires 1 + |EncodeVarint(length)| <= at <= dAtA.Length
    modifies dAtA
    ensures Written(old(dAtA[..]), dAtA[..], j, at, [tag] + EncodeVarint(length))
  {
    j := EncodeVarintInto(dAtA, at, length);
    j := j - 1;
    dAtA[j] := tag;
  }

  /** One length-delimited field ending just before index i: payload, length, tag, in that order. */
  method PutBytes(dAtA: array<Byte>, i: nat, tag: Byte, data: Bytes) returns (j: nat)
    requires |data| < TWO_64
    requires |EncodeBytes(tag, data)| <= i <= dAtA.Length
    modifies dAtA
    ensures Written(old(dAtA[..]), dAtA[..], j, i, EncodeBytes(tag, data))
  {
    var at := i - |data|;
    forall k | 0 <= k < |data| {
      dAtA[at + k] := data[k];
    }
    ghost var copied := dAtA[..];
    assert Written(old(dAtA[..]), copied, at, i, data);
    j := PutHeader(dAtA, at, tag, |data|);
    WrittenThen(old(dAtA[..]), copied, dAtA[..], j, at, i, [tag] + EncodeVarint(|data|), data);
  }

  lemma {:induction false} EncodeTextsAppend(tag: Byte, a: seq<Bytes>, b: seq<Bytes>)
    ensures EncodeTexts(tag, a + b) == EncodeTexts(tag, a) + EncodeTexts(tag, b)
  {
    if a == [] {
      assert a + b == b;
    } else {
      assert (a + b)[1..] == a[1..] + b;
      EncodeTextsAppend(tag, a[1..], b);
    }
  }

  lemma EncodeTextsFrom(tag: Byte, list: seq<Bytes>, k: nat)
    requires k < |list|
    ensures EncodeTexts(tag, list[k..]) == EncodeBytes(tag, list[k]) + EncodeTexts(tag, list[k + 1..])
    ensures |EncodeTexts(tag, list[k..])| <= |EncodeTexts(tag, list)|
  {
    assert list[k..][0] == list[k] && list[k..][1..] == list[k + 1..];
    EncodeTextsAppend(tag, list[..k], list[k..]);
    assert list[..k] + list[k..] == list;
  }

  /** A repeated string field, last element first. */
  method PutTexts(dAtA: array<Byte>, i: nat, tag: Byte, list: seq<Bytes>) returns (j: nat)
    requires |EncodeTexts(tag, list)| < TWO_63
    requires |EncodeTexts(tag, list)| <= i <= dAtA.Length
    modifies dAtA
    ensures Written(old(dAtA[..]), dAtA[..], j, i, EncodeTexts(tag, list))
  {
    j := i;
    var iNdEx := |list| - 1;
    while iNdEx >= 0
      invariant -1 <= iNdEx < |list|
      invariant Written(old(dAtA[..]), dAtA[..], j, i, EncodeTexts(tag, list[iNdEx + 1..]))
    {
      ghost var j0, before := j, dAtA[..];
      EncodeTextsFrom(tag, list, iNdEx);
      j := PutBytes(dAtA, j, tag, list[iNdEx]);
      WrittenThen(old(dAtA[..]), before, dAtA[..], j, j0, i,
                  EncodeBytes(tag, list[iNdEx]), EncodeTexts(tag, list[iNdEx + 1..]));
      iNdEx := iNdEx - 1;
    }
    assert list[0..] == list;
  }

  /*
   The writers below continue a message whose bytes dAtA[i..end] are in place:
   `back` is what is there, and `start` the buffer before anything was written.
   */

  method PrependTexts(dAtA: array<Byte>, i: nat, tag: Byte, list: seq<Bytes>,
                      ghost start: Bytes, ghost end: nat, ghost back: Bytes) returns (j: nat)
    requires |EncodeTexts(tag, list)| < TWO_63 && |EncodeTexts(tag, list)| <= i
    requires Written(start, dAtA[..], i, end, back)
    modifies dAtA
    ensures j == i - |EncodeTexts(tag, list)|
    ensures Written(start, dAtA[..], j, end, EncodeTexts(tag, list) + back)
  {
    hide EncodeTexts;
    ghost var before := dAtA[..];
    j := PutTexts(dAtA, i, tag, list);
    WrittenThen(start, before, dAtA[..], j, i, end, EncodeTexts(tag, list), back);
  }

  method PrependText(dAtA: array<Byte>, i: nat, tag: Byte, data: Bytes,
                     ghost start: Bytes, ghost end: nat, ghost back: Bytes) returns (j: nat)
    requires |EncodeText(tag, data)| < TWO_63 && |EncodeText(tag, data)| <= i
    requires Written(start, dAtA[..], i, end, back)
    modifies dAtA
    ensures j == i - |EncodeText(tag, data)|
    ensures Written(start, dAtA[..], j, end, EncodeText(tag, data) + back)
  {
    j := i;
    ghost var before := dAtA[..];
    if |data| > 0 {
      j := PutBytes(dAtA, i, tag, data);
    }
    WrittenThen(start, before, dAtA[..], j, i, end, EncodeText(tag, data), back);
  }

  method PrependNumber(dAtA: array<Byte>, i: nat, tag: Byte, v: uint64,
                       ghost start: Bytes, ghost end: nat, ghost back: Bytes) returns (j: nat)
    requires |EncodeNumber(tag, v)| <= i
    requires Written(start, dAtA[..], i, end, back)
    modifies dAtA
    ensures j == i - |EncodeNumber(tag, v)|
    ensures Written(start, dAtA[..], j, end, EncodeNumber(tag, v) + back)
  {
    j := i;
    ghost var before := dAtA[..];
    if v != 0 {
      j := PutHeader(dAtA, i, tag, v);
    }
    WrittenThen(start, before, dAtA[..], j, i, end, EncodeNumber(tag, v), back);
  }

  // ---------- reading ----------

  lemma SliceOfSlice(s: Bytes, i: nat, a: nat, b: nat)
    requires i <= a <= b <= |s|
    ensures s[i..][a - i..b - i] == s[a..b]
  {
  }

  /** A length, and the checks on where the payload ends. */
  method ScanBytes(dAtA: Bytes, iNdEx: nat) returns (r: Result<Bytes, CodeError>, postIndex: nat)
    requires iNdEx <= |dAtA| < TWO_63
    ensures
      match ReadBytes(dAtA[iNdEx..])
      case Ok((data, k)) => r == Ok(data) && postIndex == iNdEx + k
      case Err(e) => r.Err? && r.error.Kind() == e
  {
    hide ReadVarint;
    var length, start := ScanVarint(dAtA, iNdEx);
    postIndex := start;
    if length.Err? {
      return Err(length.error), postIndex;
    }
    var intLength := ToInt(length.value);
    if intLength < 0 {
      return Err(InvalidLength), postIndex;
    }
    var post := Wrap(start + intLength);
    if post < 0 {
      return Err(InvalidLength), postIndex;
    }
    if post > |dAtA| {
      return Err(UnexpectedEOF), postIndex;
    }
    SliceOfSlice(dAtA, iNdEx, start, post);
    return Ok(dAtA[start..post]), post;
  }

  /** Skip of the whole slice, given what was skipped so far. */
  ghost predicate SkipSoFar(dAtA: Bytes, iNdEx: int, depth: nat) {
    0 <= iNdEx &&
    if iNdEx > |dAtA| then depth > 0 && Skip(dAtA) == Err(Truncated)
    else
      Skip(dAtA) ==
        match SkipFrom(dAtA[iNdEx..], depth)
        case Err(e) => Err(e)
        case Ok(k) => Ok(iNdEx + k)
  }

  lemma SkipSoFarStep(dAtA: Bytes, iNdEx: nat, depth: nat)
    requires iNdEx <= |dAtA| && SkipSoFar(dAtA, iNdEx, depth)
    ensures
      match SkipItem(dAtA[iNdEx..], depth)
      case Err(e) => Skip(dAtA) == Err(e)
      case Ok((n, depth')) =>
        if depth' == 0 then Skip(dAtA) == Ok(iNdEx + n) else SkipSoFar(dAtA, iNdEx + n, depth')
  {
    hide SkipFrom, SkipItem;
    SkipFromStep(dAtA[iNdEx..], depth);
    if SkipItem(dAtA[iNdEx..], depth).Ok? {
      var n := SkipItem(dAtA[iNdEx..], depth).value.0;
      assert dAtA[iNdEx..][n..] == dAtA[iNdEx + n..];
    }
  }

  /** The end of a length-delimited value. */
  method SkipBytes(dAtA: Bytes, iNdEx: nat) returns (r: Result<int, CodeError>)
    requires iNdEx <= |dAtA| < TWO_63
    ensures r.Ok? ==> -TWO_63 <= r.value < TWO_63
    ensures
      match ReadBytes(dAtA[iNdEx..])
      case Ok((_, k)) => r == Ok(iNdEx + k)
      case Err(e) =>
        || (r.Err? && r.error.Kind() == e)
        || (e == Truncated && r.Ok? && (r.value < 0 || r.value > |dAtA|))
  {
    hide ReadVarint;
    var length, next := ScanVarint(dAtA, iNdEx);
    if length.Err? {
      return Err(length.error);
    }
    if ToInt(length.value) < 0 {
      return Err(InvalidLength);
    }
    return Ok(Wrap(next + ToInt(length.value)));
  }

  /** The end of one value of wire type w, as the switch of skipDomain moves the index. */
  method SkipValue(dAtA: Bytes, iNdEx: nat, w: nat) returns (r: Result<int, CodeError>)
    requires iNdEx <= |dAtA| < TWO_63 && w < 8 && w != 3 && w != 4
    ensures r.Ok? ==> -TWO_63 <= r.value < TWO_63
    ensures
      match PayloadLength(w, dAtA[iNdEx..])
      case Ok(k) => r == Ok(iNdEx + k)
      case Err(e) =>
        || (r.Err? && r.error.Kind() == e)
        || (e == Truncated && r.Ok? && (r.value < 0 || r.value > |dAtA|))
  {
    hide ReadVarint, ReadBytes;
    match w
    case 0 =>
      var v, next := ScanVarint(dAtA, iNdEx);
      if v.Err? {
        return Err(v.error);
      }
      return Ok(next);
    case 1 =>
      return Ok(Wrap(iNdEx + 8));
    case 2 =>
      r := SkipBytes(dAtA, iNdEx);
    case 5 =>
      return Ok(Wrap(iNdEx + 4));
    case _ =>
      return Err(Reported(IllegalWireType));
  }

  /** skipDomain; at depth 0 it may name an end past the slice, which its callers check. */
  method SkipDomain(dAtA: Bytes) returns (r: Result<nat, CodeError>)
    requires |dAtA| < TWO_63
    ensures r.Ok? ==> r.value < TWO_63
    ensures
      match Skip(dAtA)
      case Ok(n) => r == Ok(n)
      case Err(e) =>
        || (r.Err? && r.error.Kind() == e)
        || (e == Truncated && r.Ok? && r.value > |dAtA|)
  {
    hide SkipFrom;
    var iNdEx: int := 0;
    var depth := 0;
    assert dAtA[0..] == dAtA;
    while iNdEx < |dAtA|
      invariant depth >= 0 && (depth == 0 ==> iNdEx == 0)
      invariant iNdEx < TWO_63 && SkipSoFar(dAtA, iNdEx, depth)
      decreases |dAtA| - iNdEx
    {
      SkipSoFarStep(dAtA, iNdEx, depth);
      ghost var s := dAtA[iNdEx..];
      var wire, next := ScanVarint(dAtA, iNdEx);
      if wire.Err? {
        return Err(wire.error);
      }
      ghost var n := next - iNdEx;
      assert s[n..] == dAtA[next..];
      var wireType := WireType(wire.value);
      iNdEx := next;
      if wireType == 3 {
        depth := depth + 1;
      } else if wireType == 4 {
        if depth == 0 {
          return Err(Reported(UnexpectedEndOfGroup));
        }
        depth := depth - 1;
      } else {
        var end := SkipValue(dAtA, iNdEx, wireType);
        if end.Err? {
          return Err(end.error);
        }
        iNdEx := end.value;
      }
      if iNdEx < 0 {
        return Err(InvalidLength);
      }
      if depth == 0 {
        return Ok(iNdEx);
      }
    }
    if iNdEx == |dAtA| {
      assert dAtA[iNdEx..] == [];
      SkipFromNothing(depth);
    }
    return Err(UnexpectedEOF);
  }

  lemma SkipFromNothing(depth: nat)
    ensures SkipFrom([], depth) == Err(Truncated)
  {
  }

  /** The default case of both parsers: the field that starts at preIndex is passed over. */
  method SkipUnknown(dAtA: Bytes, preIndex: nat) returns (r: Result<nat, CodeError>)
    requires preIndex <= |dAtA| < TWO_63
    ensures
      match Skip(dAtA[preIndex..])
      case Ok(k) => r == Ok(preIndex + k)
      case Err(e) => r.Err? && r.error.Kind() == e
  {
    var skippy := SkipDomain(dAtA[preIndex..]);
    if skippy.Err? {
      return Err(skippy.error);
    }
    if Wrap(preIndex + skippy.value) < 0 {
      return Err(InvalidLength);
    }
    if Wrap(preIndex + skippy.value) > |dAtA| {
      return Err(UnexpectedEOF);
    }
    return Ok(preIndex + skippy.value);
  }

  /** A known length-delimited field, whose tag was read from preIndex up to iNdEx. */
  method ScanBytesField(dAtA: Bytes, preIndex: nat, iNdEx: nat, num: int, wireType: nat)
    returns (r: Result<Bytes, CodeError>, next: nat)
    requires preIndex < iNdEx <= |dAtA| < TWO_63
    ensures
      match BytesField(num, wireType, dAtA[preIndex..], iNdEx - preIndex)
      case Ok((data, k)) => r == Ok(data) && next == preIndex + k
      case Err(e) => r.Err? && r.error.Kind() == e
  {
    hide ReadBytes;
    if wireType != 2 {
      return Err(Reported(WrongWireType(num))), iNdEx;
    }
    assert dAtA[preIndex..][iNdEx - preIndex..] == dAtA[iNdEx..];
    r, next := ScanBytes(dAtA, iNdEx);
  }

  method ScanNumberField(dAtA: Bytes, preIndex: nat, iNdEx: nat, num: int, wireType: nat)
    returns (r: Result<uint64, CodeError>, next: nat)
    requires preIndex < iNdEx <= |dAtA| < TWO_63
    ensures
      match NumberField(num, wireType, dAtA[preIndex..], iNdEx - preIndex)
      case Ok((v, k)) => r == Ok(v) && next == preIndex + k
      case Err(e) => r.Err? && r.error.Kind() == e
  {
    hide ReadVarint;
    if wireType != 0 {
      return Err(Reported(WrongWireType(num))), iNdEx;
    }
    assert dAtA[preIndex..][iNdEx - preIndex..] == dAtA[iNdEx..];
    r, next := ScanVarint(dAtA, iNdEx);
  }

  // ---------- the message objects ----------

  lemma RecordStep(m: WireRecord, s: Bytes)
    requires s != []
    ensures
      DecodeRecord(m, s) ==
        match RecordField(m, s)
        case Err(e) => Err(e)
        case Ok((m', k)) => DecodeRecord(m', s[k..])
  {
    hide RecordField;
  }

  class NSRecordWithIP {
    var Name: Bytes
    var Ipv4Addresses: seq<Bytes>
    var Ipv6Addresses: seq<Bytes>

    function Value(): WireRecord
      reads this
    {
      Types.NsRecord(Name, Ipv4Addresses, Ipv6Addresses)
    }

    constructor ()
      ensures Value() == EMPTY_RECORD
    {
      Name, Ipv4Addresses, Ipv6Addresses := [], [], [];
    }

    method Size() returns (n: nat)
      ensures n == |EncodeRecord(Value())|
    {
      n := TextSize(Name);
      var v4 := TextsSize(0x12, Ipv4Addresses);
      var v6 := TextsSize(0x1a, Ipv6Addresses);
      SovIsLength(|Name|);
      n := n + v4 + v6;
    }

    /** Fills the bytes just before `end` and returns how many there are. */
    method MarshalToSizedBuffer(dAtA: array<Byte>, end: nat) returns (n: nat)
      requires EncodableRecord(Value())
      requires |EncodeRecord(Value())| <= end <= dAtA.Length
      modifies dAtA
      ensures n == |EncodeRecord(Value())|
      ensures Written(old(dAtA[..]), dAtA[..], end - n, end, EncodeRecord(Value()))
    {
      hide EncodeText, EncodeTexts, Written;
      ghost var start := dAtA[..];
      ghost var v4, v6 := EncodeTexts(0x12, Ipv4Addresses), EncodeTexts(0x1a, Ipv6Addresses);
      NothingWritten(start, end);
      var i := PrependTexts(dAtA, end, 0x1a, Ipv6Addresses, start, end, []);
      i := PrependTexts(dAtA, i, 0x12, Ipv4Addresses, start, end, v6 + []);
      i := PrependText(dAtA, i, 0x0a, Name, start, end, v4 + (v6 + []));
      assert EncodeText(0x0a, Name) + (v4 + (v6 + [])) == EncodeRecord(Value());
      n := end - i;
    }

    method Unmarshal(dAtA: Bytes) returns (err: Option<CodeError>)
      requires |dAtA| < TWO_63
      modifies this
      ensures
        match DecodeRecord(old(Value()), dAtA)
        case Ok(m) => err == None && Value() == m
        case Err(e) => err.Some? && err.value.Kind() == e
    {
      hide DecodeRecord, ReadVarint, BytesField, Skip, FieldNumber, WireType;
      var iNdEx := 0;
      assert dAtA[0..] == dAtA;
      while iNdEx < |dAtA|
        invariant 0 <= iNdEx <= |dAtA|
        invariant DecodeRecord(old(Value()), dAtA) == DecodeRecord(Value(), dAtA[iNdEx..])
      {
        var preIndex := iNdEx;
        ghost var s := dAtA[preIndex..];
        RecordStep(Value(), s);
        assert forall k :: 0 <= k <= |s| ==> s[k..] == dAtA[preIndex + k..];
        var wire;
        wire, iNdEx := ScanVarint(dAtA, iNdEx);
        if wire.Err? {
          return Some(wire.error);
        }
        var fieldNum, wireType := FieldNumber(wire.value), WireType(wire.value);
        if wireType == 4 {
          return Some(Reported(EndGroupOutsideGroup));
        }
        if fieldNum <= 0 {
          return Some(Reported(IllegalTag));
        }
        match fieldNum
        case 1 =>
          var text;
          text, iNdEx := ScanBytesField(dAtA, preIndex, iNdEx, 1, wireType);
          if text.Err? {
            return Some(text.error);
          }
          Name := text.value;
        case 2 =>
          var text;
          text, iNdEx := ScanBytesField(dAtA, preIndex, iNdEx, 2, wireType);
          if text.Err? {
            return Some(text.error);
          }
          Ipv4Addresses := Ipv4Addresses + [text.value];
        case 3 =>
          var text;
          text, iNdEx := ScanBytesField(dAtA, preIndex, iNdEx, 3, wireType);
          if text.Err? {
            return Some(text.error);
          }
          Ipv6Addresses := Ipv6Addresses + [text.value];
        case _ =>
          var next := SkipUnknown(dAtA, preIndex);
          if next.Err? {
            return Some(next.error);
          }
          iNdEx := next.value;
      }
      assert dAtA[iNdEx..] == [];
      RecordDone(Value());
      return None;
    }
  }

  lemma RecordDone(m: WireRecord)
    ensures DecodeRecord(m, []) == Ok(m)
  {
  }

  method TextSize(data: Bytes) returns (n: nat)
    ensures forall tag :: n == |EncodeText(tag, data)|
  {
    n := 0;
    var l := |data|;
    SovIsLength(l);
    if l > 0 {
      n := n + 1 + l + Sov(l);
    }
  }

  method TextsSize(tag: Byte, list: seq<Bytes>) returns (n: nat)
    ensures n == |EncodeTexts(tag, list)|
  {
    n := 0;
    for k := 0 to |list|
      invariant n + |EncodeTexts(tag, list[k..])| == |EncodeTexts(tag, list)|
    {
      EncodeTextsFrom(tag, list, k);
      var l := |list[k]|;
      SovIsLength(l);
      n := n + 1 + l + Sov(l);
    }
  }

  lemma DomainStep(m: WireDomain, s: Bytes)
    requires s != []
    ensures
      DecodeDomain(m, s) ==
        match DomainField(m, s)
        case Err(e) => Err(e)
        case Ok((m', k)) => DecodeDomain(m', s[k..])
  {
    hide DomainField;
  }

  lemma DomainDone(m: WireDomain)
    ensures DecodeDomain(m, []) == Ok(m)
  {
  }

  function RecordValues(list: seq<NSRecordWithIP>): (r: seq<WireRecord>)
    reads list
    ensures |r| == |list| && forall i :: 0 <= i < |list| ==> r[i] == list[i].Value()
  {
    if list == [] then [] else [list[0].Value()] + RecordValues(list[1..])
  }

  lemma {:induction false} EncodeRecordsAppend(a: seq<WireRecord>, b: seq<WireRecord>)
    ensures EncodeRecords(a + b) == EncodeRecords(a) + EncodeRecords(b)
  {
    if a == [] {
      assert a + b == b;
    } else {
      assert (a + b)[1..] == a[1..] + b;
      EncodeRecordsAppend(a[1..], b);
    }
  }

  lemma EncodeRecordsFrom(list: seq<WireRecord>, k: nat)
    requires k < |list|
    ensures EncodeRecords(list[k..]) == EncodeBytes(0x3a, EncodeRecord(list[k])) + EncodeRecords(list[k + 1..])
    ensures |EncodeRecords(list[k..])| <= |EncodeRecords(list)|
  {
    assert list[k..][0] == list[k] && list[k..][1..] == list[k + 1..];
    EncodeRecordsAppend(list[..k], list[k..]);
    assert list[..k] + list[k..] == list;
  }

  /** One nested message: the record writes itself, then its size and tag go in front. */
  method PutRecord(dAtA: array<Byte>, i: nat, record: NSRecordWithIP) returns (j: nat)
    requires EncodableRecord(record.Value())
    requires |EncodeBytes(0x3a, EncodeRecord(record.Value()))| <= i <= dAtA.Length
    modifies dAtA
    ensures Written(old(dAtA[..]), dAtA[..], j, i, EncodeBytes(0x3a, EncodeRecord(record.Value())))
  {
    hide EncodeRecord;
    ghost var before, data := dAtA[..], EncodeRecord(record.Value());
    var size := record.MarshalToSizedBuffer(dAtA, i);
    ghost var inner := dAtA[..];
    j := PutHeader(dAtA, i - size, 0x3a, size);
    WrittenThen(before, inner, dAtA[..], j, i - size, i, [0x3a] + EncodeVarint(size), data);
  }

  /** A repeated message field, last element first. */
  method PutRecords(dAtA: array<Byte>, i: nat, list: seq<NSRecordWithIP>) returns (j: nat)
    requires |EncodeRecords(RecordValues(list))| < TWO_63
    requires |EncodeRecords(RecordValues(list))| <= i <= dAtA.Length
    modifies dAtA
    ensures Written(old(dAtA[..]), dAtA[..], j, i, EncodeRecords(RecordValues(list)))
  {
    hide EncodeRecords, EncodeRecord, EncodeBytes, EncodableRecord;
    j := i;
    var iNdEx := |list| - 1;
    ghost var start, values := dAtA[..], RecordValues(list);
    EncodeRecordsNone();
    assert values[|list|..] == [];
    while iNdEx >= 0
      invariant -1 <= iNdEx < |list|
      invariant Written(start, dAtA[..], j, i, EncodeRecords(values[iNdEx + 1..]))
    {
      ghost var j0, before, rest := j, dAtA[..], EncodeRecords(values[iNdEx + 1..]);
      RecordFits(values, iNdEx);
      assert list[iNdEx].Value() == values[iNdEx];
      j := PutRecord(dAtA, j, list[iNdEx]);
      WrittenThen(start, before, dAtA[..], j, j0, i, EncodeBytes(0x3a, EncodeRecord(values[iNdEx])), rest);
      iNdEx := iNdEx - 1;
    }
    assert values[0..] == values;
  }

  lemma RecordFits(list: seq<WireRecord>, k: nat)
    requires k < |list| && |EncodeRecords(list)| < TWO_63
    ensures EncodableRecord(list[k])
    ensures EncodeRecords(list[k..]) == EncodeBytes(0x3a, EncodeRecord(list[k])) + EncodeRecords(list[k + 1..])
    ensures |EncodeBytes(0x3a, EncodeRecord(list[k]))| + |EncodeRecords(list[k + 1..])| <= |EncodeRecords(list)|
  {
    hide EncodeRecords, EncodeRecord;
    EncodeRecordsFrom(list, k);
  }

  lemma EncodeRecordsNone()
    ensures EncodeRecords([]) == []
  {
  }

  class Domain {
    var Id: uint64
    var Name: Bytes
    var Owner: Bytes
    var NsRecords: seq<NSRecordWithIP>
    var Creator: Bytes
    var Expiration: uint64

    function Value(): WireDomain
      reads this, NsRecords
    {
      Types.Domain(Id, Name, Owner, RecordValues(NsRecords), Creator, Expiration)
    }

    constructor ()
      ensures Value() == EMPTY_DOMAIN
    {
      Id, Name, Owner, NsRecords, Creator, Expiration := 0, [], [], [], [], 0;
    }

    method Size() returns (n: nat)
      ensures n == |EncodeDomain(Value())|
    {
      n := 0;
      SovIsLength(Id);
      if Id != 0 {
        n := n + 1 + Sov(Id);
      }
      var name := TextSize(Name);
      var owner := TextSize(Owner);
      var creator := TextSize(Creator);
      n := n + name + owner + creator;
      SovIsLength(Expiration);
      if Expiration != 0 {
        n := n + 1 + Sov(Expiration);
      }
      ghost var values, scalars := RecordValues(NsRecords), n;
      for k := 0 to |NsRecords|
        invariant n - scalars + |EncodeRecords(values[k..])| == |EncodeRecords(values)|
      {
        EncodeRecordsFrom(values, k);
        var l := NsRecords[k].Size();
        SovIsLength(l);
        n := n + 1 + l + Sov(l);
      }
      DomainLength(Value());
    }

    method MarshalToSizedBuffer(dAtA: array<Byte>, end: nat) returns (n: nat)
      requires Encodable(Value())
      requires |EncodeDomain(Value())| <= end <= dAtA.Length
      modifies dAtA
      ensures n == |EncodeDomain(Value())|
      ensures Written(old(dAtA[..]), dAtA[..], end - n, end, EncodeDomain(Value()))
    {
      hide EncodeNumber, EncodeText, EncodeRecords, Written, RecordValues;
      DomainLength(Value());
      ghost var start := dAtA[..];
      ghost var d1 := EncodeRecords(RecordValues(NsRecords));
      ghost var d2 := EncodeNumber(0x30, Expiration) + d1;
      ghost var d3 := EncodeText(0x2a, Creator) + d2;
      ghost var d4 := EncodeText(0x1a, Owner) + d3;
      ghost var d5 := EncodeText(0x12, Name) + d4;
      var i := PutRecords(dAtA, end, NsRecords);
      WrittenEnds(start, dAtA[..], i, end, d1);
      i := PrependNumber(dAtA, i, 0x30, Expiration, start, end, d1);
      i := PrependText(dAtA, i, 0x2a, Creator, start, end, d2);
      i := PrependText(dAtA, i, 0x1a, Owner, start, end, d3);
      i := PrependText(dAtA, i, 0x12, Name, start, end, d4);
      i := PrependNumber(dAtA, i, 0x08, Id, start, end, d5);
      DomainFromBack(Value());
      n := end - i;
    }

    /** A buffer of exactly Size() bytes is filled without a gap. */
    method Marshal() returns (dAtA: array<Byte>)
      requires Encodable(Value())
      ensures fresh(dAtA) && dAtA[..] == EncodeDomain(Value())
    {
      var size := Size();
      dAtA := new Byte[size](_ => 0);
      var n := MarshalToSizedBuffer(dAtA, size);
      assert dAtA[..] == dAtA[size - n..size];
    }

    /** A nested message: an empty record joins the list and is filled in place. */
    method AppendRecord(dAtA: Bytes) returns (err: Option<CodeError>)
      requires |dAtA| < TWO_63
      modifies this`NsRecords
      ensures
        match DecodeRecord(EMPTY_RECORD, dAtA)
        case Ok(r) =>
          && err == None
          && RecordValues(NsRecords) == old(RecordValues(NsRecords)) + [r]
        case Err(e) => err.Some? && err.value.Kind() == e
      ensures |NsRecords| == |old(NsRecords)| + 1 && NsRecords[..|old(NsRecords)|] == old(NsRecords)
      ensures fresh(NsRecords[|old(NsRecords)|])
    {
      hide DecodeRecord;
      ghost var earlier := RecordValues(NsRecords);
      var record := new NSRecordWithIP();
      NsRecords := NsRecords + [record];
      err := record.Unmarshal(dAtA);
      assert RecordValues(NsRecords) == earlier + [record.Value()];
    }

    method Unmarshal(dAtA: Bytes) returns (err: Option<CodeError>)
      requires |dAtA| < TWO_63
      modifies this
      ensures
        match DecodeDomain(old(Value()), dAtA)
        case Ok(m) => err == None && Value() == m
        case Err(e) => err.Some? && err.value.Kind() == e
    {
      hide DecodeDomain, DecodeRecord, ReadVarint, BytesField, NumberField, Skip, RecordValues, FieldNumber, WireType;
      var iNdEx := 0;
      assert dAtA[0..] == dAtA;
      while iNdEx < |dAtA|
        invariant 0 <= iNdEx <= |dAtA|
        invariant DecodeDomain(old(Value()), dAtA) == DecodeDomain(Value(), dAtA[iNdEx..])
      {
        var preIndex := iNdEx;
        ghost var s := dAtA[preIndex..];
        DomainStep(Value(), s);
        assert forall k :: 0 <= k <= |s| ==> s[k..] == dAtA[preIndex + k..];
        var wire;
        wire, iNdEx := ScanVarint(dAtA, iNdEx);
        if wire.Err? {
          return Some(wire.error);
        }
        var fieldNum, wireType := FieldNumber(wire.value), WireType(wire.value);
        if wireType == 4 {
          return Some(Reported(EndGroupOutsideGroup));
        }
        if fieldNum <= 0 {
          return Some(Reported(IllegalTag));
        }
        match fieldNum
        case 1 =>
          var number;
          number, iNdEx := ScanNumberField(dAtA, preIndex, iNdEx, 1, wireType);
          if number.Err? {
            return Some(number.error);
          }
          Id := number.value;
        case 2 =>
          var text;
          text, iNdEx := ScanBytesField(dAtA, preIndex, iNdEx, 2, wireType);
          if text.Err? {
            return Some(text.error);
          }
          Name := text.value;
        case 3 =>
          var text;
          text, iNdEx := ScanBytesField(dAtA, preIndex, iNdEx, 3, wireType);
          if text.Err? {
            return Some(text.error);
          }
          Owner := text.value;
        case 5 =>
          var text;
          text, iNdEx := ScanBytesField(dAtA, preIndex, iNdEx, 5, wireType);
          if text.Err? {
            return Some(text.error);
          }
          Creator := text.value;
        case 6 =>
          var number;
          number, iNdEx := ScanNumberField(dAtA, preIndex, iNdEx, 6, wireType);
          if number.Err? {
            return Some(number.error);
          }
          Expiration := number.value;
        case 7 =>
          var msg;
          msg, iNdEx := ScanBytesField(dAtA, preIndex, iNdEx, 7, wireType);
          if msg.Err? {
            return Some(msg.error);
          }
          var failed := AppendRecord(msg.value);
          if failed.Some? {
            return failed;
          }
        case _ =>
          var next := SkipUnknown(dAtA, preIndex);
          if next.Err? {
            return Some(next.error);
          }
          iNdEx := next.value;
      }
      assert dAtA[iNdEx..] == [];
      DomainDone(Value());
      return None;
    }
  }

  lemma DomainLength(m: WireDomain)
    ensures
      |EncodeDomain(m)| ==
        |EncodeNumber(0x08, m.id)| + |EncodeText(0x12, m.name)| + |EncodeText(0x1a, m.owner)|
        + |EncodeText(0x2a, m.creator)| + |EncodeNumber(0x30, m.expiration)| + |EncodeRecords(m.nsRecords)|
  {
    hide EncodeNumber, EncodeText, EncodeRecords;
  }

  lemma DomainFromBack(m: WireDomain)
    ensures
      EncodeDomain(m) ==
        EncodeNumber(0x08, m.id) + (EncodeText(0x12, m.name) + (EncodeText(0x1a, m.owner)
        + (EncodeText(0x2a, m.creator) + (EncodeNumber(0x30, m.expiration) + EncodeRecords(m.nsRecords)))))
  {
    hide EncodeNumber, EncodeText, EncodeRecords;
  }

  /** Writing a message and reading the bytes into an empty one gives an equal message. */
  method MarshalThenUnmarshal(m: Domain) returns (copy: Domain, err: Option<CodeError>)
    requires Encodable(m.Value())
    ensures fresh(copy) && err == None && copy.Value() == m.Value()
  {
    var dAtA := m.Marshal();
    copy := new Domain();
    DomainRoundTrip(m.Value());
    err := copy.Unmarshal(dAtA[..]);
  }
}
