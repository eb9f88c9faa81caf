/**
 Base 128 varints (Protocol Buffers Encoding, section "Base 128 Varints"), as
 read and written by the generated code of x/dnsblockchain/types/domain.pb.go.

 A varint is given twice: by its bytes (IsVarint, Base128), which is the
 format's own definition, and by the loops of the generated code.
 */
module Varint {
  import opened Wrappers
  import opened GoInts

  type Byte = x: int | 0 <= x < 256
  type Bytes = seq<Byte>
  /** Why a byte string is not a message. Truncated: it ends inside a field. */
  datatype WireError =
    | IntOverflow
    | Truncated
    | EndGroupOutsideGroup
    | IllegalTag
    | WrongWireType(field: int)
    | UnexpectedEndOfGroup
    | IllegalWireType

  type Parsed<+T> = Result<T, WireError>

  /**
   What the generated code returns. A field that runs past the end is reported
   as io.ErrUnexpectedEOF, or as ErrInvalidLengthDomain when computing its end
   leaves the range of a Go int; which of the two depends on where the field
   starts in the slice, so both are Truncated.
   */
  datatype CodeError = UnexpectedEOF | InvalidLength | Reported(error: WireError) {
    function Kind(): WireError {
      if Reported? then error else Truncated
    }
  }

  // ---------- the format ----------

  /** The number a run of varint bytes spells, least significant group first. */
  function Base128(t: Bytes): nat {
    if t == [] then 0 else t[0] % 128 + 128 * Base128(t[1..])
  }

  /** One to ten bytes; all but the last have the continuation bit. */
  ghost predicate IsVarint(t: Bytes) {
    && 1 <= |t| <= 10
    && t[|t| - 1] < 128
    && forall k :: 0 <= k < |t| - 1 ==> t[k] >= 128
  }

  /** The 64 bits that a reader keeps of a varint. */
  function VarintValue(t: Bytes): uint64 {
    Base128(t) % TWO_64
  }

  /** Length of the varint at the head of s, when `seen` of its bytes were read before. */
  function VarintLength(s: Bytes, seen: nat): (r: Parsed<nat>)
    ensures r.Ok? ==> 1 <= r.value <= |s|
    decreases |s|
  {
    if seen >= 10 then Err(IntOverflow)
    else if s == [] then Err(Truncated)
    else if s[0] < 128 then Ok(1)
    else
      var n :- VarintLength(s[1..], seen + 1);
      Ok(n + 1)
  }

  /** The value at the head of s and the number of bytes it takes. */
  function ReadVarint(s: Bytes): (r: Parsed<(uint64, nat)>)
    ensures r.Ok? ==> 1 <= r.value.1 <= |s|
  {
    var n :- VarintLength(s, 0);
    Ok((VarintValue(s[..n]), n))
  }

  function EncodeVarint(v: nat): (t: Bytes)
    ensures |t| >= 1
  {
    if v < 128 then [v] else [128 + v % 128] + EncodeVarint(v / 128)
  }

  // ---------- laws of the format ----------

  lemma {:induction false} VarintLengthOf(t: Bytes, rest: Bytes, seen: nat)
    requires 1 <= |t| && seen + |t| <= 10
    requires t[|t| - 1] < 128
    requires forall k :: 0 <= k < |t| - 1 ==> t[k] >= 128
    ensures VarintLength(t + rest, seen) == Ok(|t|)
  {
    if |t| > 1 {
      assert (t + rest)[1..] == t[1..] + rest;
      VarintLengthOf(t[1..], rest, seen + 1);
    } else {
      assert (t + rest)[0] == t[0];
    }
  }

  /** Every varint, minimal or not, is read back whole whatever follows it. */
  lemma ReadsBack(t: Bytes, rest: Bytes)
    requires IsVarint(t)
    ensures ReadVarint(t + rest) == Ok((VarintValue(t), |t|))
  {
    VarintLengthOf(t, rest, 0);
    assert (t + rest)[..|t|] == t;
  }

  lemma {:induction false} VarintLengthShape(s: Bytes, seen: nat)
    requires VarintLength(s, seen).Ok?
    ensures
      var n := VarintLength(s, seen).value;
      && seen + n <= 10
      && s[n - 1] < 128
      && forall k :: 0 <= k < n - 1 ==> s[k] >= 128
  {
    if s[0] >= 128 {
      VarintLengthShape(s[1..], seen + 1);
      var n := VarintLength(s, seen).value;
      forall k | 0 <= k < n - 1 ensures s[k] >= 128 {
        if k > 0 { assert s[k] == s[1..][k - 1]; }
      }
    }
  }

  /** Conversely, what a read consumes is a varint of the format. */
  lemma ReadsOnlyVarints(s: Bytes)
    requires ReadVarint(s).Ok?
    ensures
      var (v, n) := ReadVarint(s).value;
      IsVarint(s[..n]) && v == VarintValue(s[..n])
  {
    VarintLengthShape(s, 0);
  }

  /** A successful read does not look past the varint. */
  lemma ReadVarintPrefix(x: Bytes, y: Bytes)
    requires ReadVarint(x).Ok?
    ensures ReadVarint(x + y) == ReadVarint(x)
  {
    var (v, n) := ReadVarint(x).value;
    ReadsOnlyVarints(x);
    assert x + y == x[..n] + (x[n..] + y);
    ReadsBack(x[..n], x[n..] + y);
  }

  function Power128(k: nat): (p: nat)
    ensures p > 0
  {
    if k == 0 then 1 else 128 * Power128(k - 1)
  }

  lemma {:induction false} EncodeVarintValue(v: nat)
    ensures Base128(EncodeVarint(v)) == v
  {
    if v < 128 {
      assert [v][1..] == [];
    } else {
      EncodeVarintValue(v / 128);
      assert EncodeVarint(v)[1..] == EncodeVarint(v / 128);
    }
  }

  lemma {:induction false} EncodeVarintLength(v: nat, k: nat)
    requires k >= 1 && v < Power128(k)
    ensures |EncodeVarint(v)| <= k
  {
    if v >= 128 {
      assert Power128(0) == 1;
      assert Power128(k) == 128 * Power128(k - 1);
      EncodeVarintLength(v / 128, k - 1);
    }
  }

  lemma {:induction false} EncodeVarintShape(v: nat)
    ensures
      var t := EncodeVarint(v);
      t[|t| - 1] < 128 && forall j :: 0 <= j < |t| - 1 ==> t[j] >= 128
  {
    if v >= 128 {
      EncodeVarintShape(v / 128);
      var t, tail := EncodeVarint(v), EncodeVarint(v / 128);
      assert t[|t| - 1] == tail[|tail| - 1];
      forall j | 0 <= j < |tail| ensures t[j] >= 128 {
        if j > 0 { assert t[j] == tail[j - 1]; }
      }
    }
  }

  lemma Power128Of10()
    ensures Power128(9) == 0x8000_0000_0000_0000
    ensures Power128(10) == 0x40_0000_0000_0000_0000
  {
    assert Power128(1) == 128 * Power128(0);
    assert Power128(2) == 128 * Power128(1);
    assert Power128(3) == 128 * Power128(2);
    assert Power128(4) == 128 * Power128(3);
    assert Power128(5) == 128 * Power128(4);
    assert Power128(6) == 128 * Power128(5);
    assert Power128(7) == 128 * Power128(6);
    assert Power128(8) == 128 * Power128(7);
    assert Power128(9) == 128 * Power128(8);
    assert Power128(10) == 128 * Power128(9);
  }

  /** Every uint64 has a varint, and reading it gives the number back. */
  lemma VarintRoundTrip(v: uint64, rest: Bytes)
    ensures IsVarint(EncodeVarint(v)) && VarintValue(EncodeVarint(v)) == v
    ensures ReadVarint(EncodeVarint(v) + rest) == Ok((v, |EncodeVarint(v)|))
  {
    Power128Of10();
    EncodeVarintValue(v);
    EncodeVarintLength(v, 10);
    EncodeVarintShape(v);
    ReadsBack(EncodeVarint(v), rest);
  }

  // ---------- sovDomain ----------

  /** math/bits.Len64: the number of binary digits of x. */
  function BitLength(x: nat): nat {
    if x == 0 then 0 else 1 + BitLength(x / 2)
  }

  /** x | 1 */
  function WithLowBit(x: nat): nat {
    if x % 2 == 0 then x + 1 else x
  }

  function Sov(x: nat): nat {
    (BitLength(WithLowBit(x)) + 6) / 7
  }

  lemma BitLengthOfShift7(x: nat)
    requires x >= 128
    ensures BitLength(x) == 7 + BitLength(x / 128)
  {
    var x1 := x / 2; var x2 := x1 / 2; var x3 := x2 / 2; var x4 := x3 / 2;
    var x5 := x4 / 2; var x6 := x5 / 2; var x7 := x6 / 2;
    assert BitLength(x) == 1 + BitLength(x1);
    assert BitLength(x1) == 1 + BitLength(x2);
    assert BitLength(x2) == 1 + BitLength(x3);
    assert BitLength(x3) == 1 + BitLength(x4);
    assert BitLength(x4) == 1 + BitLength(x5);
    assert BitLength(x5) == 1 + BitLength(x6);
    assert BitLength(x6) == 1 + BitLength(x7);
    assert x7 == x / 128;
  }

  lemma BitLengthSmall(x: nat)
    requires 0 < x < 128
    ensures 1 <= BitLength(x) <= 7
  {
    var x1 := x / 2; var x2 := x1 / 2; var x3 := x2 / 2; var x4 := x3 / 2;
    var x5 := x4 / 2; var x6 := x5 / 2;
    assert BitLength(x) == 1 + BitLength(x1);
    if x1 > 0 { assert BitLength(x1) == 1 + BitLength(x2); }
    if x2 > 0 { assert BitLength(x2) == 1 + BitLength(x3); }
    if x3 > 0 { assert BitLength(x3) == 1 + BitLength(x4); }
    if x4 > 0 { assert BitLength(x4) == 1 + BitLength(x5); }
    if x5 > 0 { assert BitLength(x5) == 1 + BitLength(x6); }
    assert x6 <= 1;
    if x6 > 0 { assert BitLength(x6) == 1 + BitLength(0); }
  }

  lemma BitLengthIgnoresLowBit(x: nat)
    requires x >= 2
    ensures BitLength(WithLowBit(x)) == BitLength(x)
  {
    assert WithLowBit(x) / 2 == x / 2;
  }

  /** sovDomain counts exactly the bytes that encodeVarintDomain writes. */
  lemma {:induction false} SovIsLength(v: nat)
    ensures Sov(v) == |EncodeVarint(v)|
  {
    if v < 128 {
      BitLengthSmall(WithLowBit(v));
    } else {
      SovIsLength(v / 128);
      BitLengthOfShift7(v);
      BitLengthIgnoresLowBit(v);
      if v / 128 >= 2 {
        BitLengthIgnoresLowBit(v / 128);
      } else {
        assert WithLowBit(v / 128) == 1;
      }
    }
  }

  // ---------- the generated loops ----------

  function Power2(k: nat): (p: nat)
    ensures p > 0
  {
    if k == 0 then 1 else 2 * Power2(k - 1)
  }

  lemma Power2Step7(k: nat)
    ensures Power2(k + 7) == 128 * Power2(k)
  {
    assert Power2(k + 7) == 2 * Power2(k + 6);
    assert Power2(k + 6) == 2 * Power2(k + 5);
    assert Power2(k + 5) == 2 * Power2(k + 4);
    assert Power2(k + 4) == 2 * Power2(k + 3);
    assert Power2(k + 3) == 2 * Power2(k + 2);
    assert Power2(k + 2) == 2 * Power2(k + 1);
    assert Power2(k + 1) == 2 * Power2(k);
  }

  /**
   v | bits << shift on uint64. The bits of v all lie below `shift`, so the two
   operands share no bit and the disjunction is a sum; what is shifted past bit
   63 is lost.
   */
  function OrShifted(v: uint64, bits: nat, shift: nat): uint64
    requires v < Power2(shift)
  {
    (v + bits * Power2(shift)) % TWO_64
  }

  lemma {:induction false} Base128Append(t: Bytes, b: Byte)
    ensures Base128(t + [b]) == Base128(t) + (b % 128) * Power2(7 * |t|)
  {
    if t == [] {
      assert (t + [b])[1..] == [];
      assert Power2(0) == 1;
    } else {
      assert (t + [b])[1..] == t[1..] + [b];
      Base128Append(t[1..], b);
      Power2Step7(7 * |t[1..]|);
      assert 7 * |t| == 7 * |t[1..]| + 7;
      var p := Power2(7 * |t[1..]|);
      assert 128 * ((b % 128) * p) == (b % 128) * (128 * p);
    }
  }

  lemma {:induction false} Base128Bound(t: Bytes)
    ensures Base128(t) < Power2(7 * |t|)
  {
    if t != [] {
      Base128Bound(t[1..]);
      Power2Step7(7 * |t[1..]|);
      assert 7 * |t| == 7 * |t[1..]| + 7;
    }
  }

  /** 7 * 9 = 63 bits are below 2^64, so no bit is lost before the tenth byte. */
  lemma {:induction false} Power2Small(k: nat)
    requires k <= 9
    ensures Power2(7 * k) <= TWO_63
  {
    Power2At63();
    Power2Monotone(7 * k, 63);
  }

  lemma {:induction false} Power2Monotone(a: nat, b: nat)
    requires a <= b
    ensures Power2(a) <= Power2(b)
    decreases b
  {
    if a < b { Power2Monotone(a, b - 1); }
  }

  lemma Power2At63()
    ensures Power2(63) == TWO_63
  {
    hide Power2;
    Power2Of0();
    Power2Step7(0); Power2Step7(7); Power2Step7(14); Power2Step7(21); Power2Step7(28);
    Power2Step7(35); Power2Step7(42); Power2Step7(49); Power2Step7(56);
  }

  lemma Power2Of0()
    ensures Power2(0) == 1
  {
  }

  lemma {:induction false} VarintLengthGoesOn(s: Bytes, k: nat)
    requires k <= |s| && k <= 10
    requires forall j :: 0 <= j < k ==> s[j] >= 128
    ensures
      VarintLength(s, 0) ==
        match VarintLength(s[k..], k)
        case Err(e) => Err(e)
        case Ok(n) => Ok(n + k)
  {
    if k == 0 {
      assert s[0..] == s;
    } else {
      VarintLengthGoesOn(s, k - 1);
      assert s[k - 1..][1..] == s[k..];
    }
  }

  /**
   The varint loop that the generated code repeats for every tag, length and
   number; iNdEx is where it starts and next where it stops.
   */
  method ScanVarint(dAtA: Bytes, iNdEx: nat) returns (r: Result<uint64, CodeError>, next: nat)
    requires iNdEx <= |dAtA|
    ensures
      match ReadVarint(dAtA[iNdEx..])
      case Ok((v, n)) => r == Ok(v) && next == iNdEx + n
      case Err(e) => r == Err(if e == Truncated then UnexpectedEOF else Reported(e))
  {
    next := iNdEx;
    var wire: uint64 := 0;
    var shift := 0;
    ghost var k := 0;
    ghost var s := dAtA[iNdEx..];
    assert Power2(0) == 1;
    while true
      invariant iNdEx <= next <= |dAtA| && next == iNdEx + k
      invariant k <= 10 && shift == 7 * k
      invariant forall j :: 0 <= j < k ==> s[j] >= 128
      invariant wire == VarintValue(s[..k])
      decreases 10 - k
    {
      VarintLengthGoesOn(s, k);
      if shift >= 64 {
        return Err(Reported(IntOverflow)), next;
      }
      if next >= |dAtA| {
        return Err(UnexpectedEOF), next;
      }
      var b := dAtA[next];
      next := next + 1;
      Base128Bound(s[..k]);
      Power2Small(k);
      assert wire == Base128(s[..k]);
      wire := OrShifted(wire, b % 128, shift);
      Base128Append(s[..k], b);
      assert s[..k + 1] == s[..k] + [b];
      if b < 0x80 {
        return Ok(wire), next;
      }
      shift := shift + 7;
      k := k + 1;
    }
  }

  /** `after` is `before` with data put into [j, i) and nothing else changed. */
  ghost predicate Written(before: Bytes, after: Bytes, j: int, i: int, data: Bytes) {
    && 0 <= j <= i <= |before| == |after| && i - j == |data|
    && after[j..i] == data
    && after[..j] == before[..j] && after[i..] == before[i..]
  }

  lemma NothingWritten(start: Bytes, i: nat)
    requires i <= |start|
    ensures Written(start, start, i, i, [])
  {
  }

  lemma WrittenEnds(before: Bytes, after: Bytes, j: int, i: int, data: Bytes)
    requires Written(before, after, j, i, data)
    ensures 0 <= j == i - |data| && |after| == |before|
  {
  }

  lemma WrittenThen(s0: Bytes, s1: Bytes, s2: Bytes, k: int, j: int, i: int, front: Bytes, back: Bytes)
    requires Written(s0, s1, j, i, back) && Written(s1, s2, k, j, front)
    ensures Written(s0, s2, k, i, front + back)
  {
    assert s2[j..i] == s2[j..][..i - j] == s1[j..][..i - j];
    assert s2[k..i] == s2[k..j] + s2[j..i];
    assert s2[i..] == s2[j..][i - j..] == s1[j..][i - j..];
    assert s2[..k] == s1[..j][..k] == s0[..j][..k];
  }

  /**
   encodeVarintDomain: writes v so that its last byte is just before `offset`
   and returns where it starts.
   */
  method EncodeVarintInto(dAtA: array<Byte>, offset: nat, v: uint64) returns (base: nat)
    requires offset <= dAtA.Length && |EncodeVarint(v)| <= offset
    modifies dAtA
    ensures Written(old(dAtA[..]), dAtA[..], base, offset, EncodeVarint(v))
  {
    SovIsLength(v);
    base := offset - Sov(v);
    var at := base;
    var left: nat := v;
    while left >= 128
      invariant base <= at < offset
      invariant at + |EncodeVarint(left)| == offset
      invariant EncodeVarint(v) == dAtA[base..at] + EncodeVarint(left)
      invariant dAtA[..base] == old(dAtA[..base]) && dAtA[offset..] == old(dAtA[offset..])
    {
      ghost var done := dAtA[base..at];
      ghost var low := left % 128 + 128;
      dAtA[at] := left % 128 + 128;
      assert dAtA[base..at + 1] == done + [low];
      assert done + EncodeVarint(left) == done + [low] + EncodeVarint(left / 128);
      left := left / 128;
      at := at + 1;
    }
    ghost var done := dAtA[base..at];
    dAtA[at] := left;
    assert dAtA[base..offset] == done + [left];
  }
}
