/** Reading Borsh-encoded event data by offset: little-endian integers, one-byte
    booleans, 32-byte keys and length-prefixed strings. A read that does not fit
    gives a zero value and does not move. */
module Borsh {
  import opened Arithmetic
  import opened Words

  // ----- Little-endian numbers -----

  function LittleEndian(b: seq<Byte>): (n: nat)
    ensures b == [] ==> n == 0
  {
    if b == [] then 0 else b[0] + 256 * LittleEndian(b[1..])
  }

  function Encoded(n: nat, width: nat): (b: seq<Byte>)
    ensures |b| == width
  {
    if width == 0 then [] else [n % 256] + Encoded(n / 256, width - 1)
  }

  lemma {:induction false} DecodeEncoded(n: nat, width: nat)
    requires n < Pow2(8 * width)
    ensures LittleEndian(Encoded(n, width)) == n
  {
    if width > 0 {
      Pow2Byte(width - 1);
      DecodeEncoded(n / 256, width - 1);
      assert Encoded(n, width)[1..] == Encoded(n / 256, width - 1);
    }
  }

  lemma {:induction false} EncodeDecoded(b: seq<Byte>)
    ensures Encoded(LittleEndian(b), |b|) == b
    ensures LittleEndian(b) < Pow2(8 * |b|)
  {
    if b != [] {
      EncodeDecoded(b[1..]);
      Pow2Byte(|b| - 1);
      var rest := LittleEndian(b[1..]);
      assert LittleEndian(b) == 256 * rest + b[0];
      DivModUnique(LittleEndian(b), 256, rest, b[0]);
    }
  }

  lemma {:induction false} SplitLittleEndian(a: seq<Byte>, b: seq<Byte>)
    ensures LittleEndian(a + b) == LittleEndian(a) + Pow2(8 * |a|) * LittleEndian(b)
  {
    if a == [] {
      assert a + b == b;
    } else {
      SplitLittleEndian(a[1..], b);
      assert (a + b)[1..] == a[1..] + b;
      Pow2Byte(|a| - 1);
      MulAssoc(256, Pow2(8 * (|a| - 1)), LittleEndian(b));
    }
  }

  // ----- Primitive reads -----

  /** The next `width` bytes as a number. */
  function ParseUint(data: seq<Byte>, offset: int, width: nat): (r: (nat, int))
    ensures 0 <= offset <= |data| ==> offset <= r.1 <= |data|
  {
    if offset < 0 || offset + width > |data| then (0, offset)
    else (LittleEndian(data[offset..offset + width]), offset + width)
  }

  function ParseU8(data: seq<Byte>, offset: int): (r: (Byte, int))
    ensures 0 <= offset <= |data| ==> offset <= r.1 <= |data|
  {
    if offset < 0 || offset >= |data| then (0, offset) else (data[offset], offset + 1)
  }

  function ParseBool(data: seq<Byte>, offset: int): (r: (bool, int))
    ensures 0 <= offset <= |data| ==> offset <= r.1 <= |data|
  {
    if offset < 0 || offset >= |data| then (false, offset) else (data[offset] != 0, offset + 1)
  }

  function ParseU16LE(data: seq<Byte>, offset: int): (r: (nat, int))
    ensures 0 <= offset <= |data| ==> offset <= r.1 <= |data|
  {
    ParseUint(data, offset, 2)
  }

  function ParseU64LE(data: seq<Byte>, offset: int): (r: (nat, int))
    ensures 0 <= offset <= |data| ==> offset <= r.1 <= |data|
  {
    ParseUint(data, offset, 8)
  }

  function ToInt64(n: nat): int {
    if n < TWO_63 then n else n - TWO_64
  }

  function ParseI64LE(data: seq<Byte>, offset: int): (r: (int, int))
    ensures 0 <= offset <= |data| ==> offset <= r.1 <= |data|
  {
    var (n, next) := ParseUint(data, offset, 8);
    (ToInt64(n), next)
  }

  datatype Uint128 = Uint128(low: nat, high: nat) {
    /** The two halves do not overlap, so joining them is adding. */
    function ToBigInt(): nat { high * TWO_64 + low }
  }

  function ParseU128LE(data: seq<Byte>, offset: int): (r: (Uint128, int))
    ensures 0 <= offset <= |data| ==> offset <= r.1 <= |data|
  {
    if offset < 0 || offset + 16 > |data| then (Uint128(0, 0), offset)
    else (Uint128(LittleEndian(data[offset..offset + 8]), LittleEndian(data[offset + 8..offset + 16])), offset + 16)
  }

  /** A key as its bytes; no bytes when it does not fit. */
  function ParsePubkey(data: seq<Byte>, offset: int): (r: (seq<Byte>, int))
    ensures 0 <= offset <= |data| ==> offset <= r.1 <= |data|
  {
    if offset < 0 || offset + 32 > |data| then ([], offset) else (data[offset..offset + 32], offset + 32)
  }

  /** A string whose announced length overruns the data reads as empty, and only
      its length prefix is consumed. */
  function ParseString(data: seq<Byte>, offset: int): (r: (seq<Byte>, int))
    ensures 0 <= offset <= |data| ==> offset <= r.1 <= |data|
  {
    if offset < 0 || offset + 4 > |data| then ([], offset)
    else
      var length := LittleEndian(data[offset..offset + 4]);
      var start := offset + 4;
      if start + length > |data| then ([], start) else (data[start..start + length], start + length)
  }

  /** Joining the halves of a 128-bit number gives the number its bytes encode. */
  lemma U128IsWhole(data: seq<Byte>, offset: nat)
    requires offset + 16 <= |data|
    ensures ParseU128LE(data, offset).0.ToBigInt() == LittleEndian(data[offset..offset + 16])
  {
    var low, high := data[offset..offset + 8], data[offset + 8..offset + 16];
    assert data[offset..offset + 16] == low + high;
    SplitLittleEndian(low, high);
    FieldSizes();
    assert TWO_64 * LittleEndian(high) == LittleEndian(high) * TWO_64;
  }

  // ----- Encodings -----

  function EncodeUint(n: nat, width: nat): seq<Byte> { Encoded(n, width) }

  function EncodeI64(n: int): seq<Byte>
    requires -TWO_63 <= n < TWO_63
  {
    Encoded(if n < 0 then n + TWO_64 else n, 8)
  }

  function EncodeBool(b: bool): seq<Byte> { if b then [1] else [0] }

  function EncodeString(s: seq<Byte>): seq<Byte> { Encoded(|s|, 4) + s }

  lemma FieldSizes()
    ensures Pow2(8 * 8) == TWO_64 && Pow2(8 * 4) == TWO_32
  {
    WordSizes();
  }

  predicate IsKey(k: seq<Byte>) { |k| == 32 }

  predicate IsU64(n: nat) { n < TWO_64 }

  // ----- A read of what was written: from `offset` on the data is e, then rest -----

  ghost predicate Ahead(data: seq<Byte>, offset: int, rest: seq<Byte>) {
    0 <= offset <= |data| && data[offset..] == rest
  }

  lemma Consumed(data: seq<Byte>, offset: int, e: seq<Byte>, rest: seq<Byte>)
    requires Ahead(data, offset, e + rest)
    ensures offset + |e| <= |data| && data[offset..offset + |e|] == e && Ahead(data, offset + |e|, rest)
  {
    assert |data| - offset == |e| + |rest|;
    assert data[offset..offset + |e|] == data[offset..][..|e|];
    assert data[offset + |e|..] == data[offset..][|e|..];
  }

  lemma ReadUint(data: seq<Byte>, offset: int, n: nat, width: nat, rest: seq<Byte>)
    requires n < Pow2(8 * width) && Ahead(data, offset, EncodeUint(n, width) + rest)
    ensures ParseUint(data, offset, width) == (n, offset + width) && Ahead(data, offset + width, rest)
  {
    Consumed(data, offset, EncodeUint(n, width), rest);
    DecodeEncoded(n, width);
  }

  lemma ReadU64(data: seq<Byte>, offset: int, n: nat, rest: seq<Byte>)
    requires n < TWO_64 && Ahead(data, offset, EncodeUint(n, 8) + rest)
    ensures ParseU64LE(data, offset) == (n, offset + 8) && Ahead(data, offset + 8, rest)
  {
    FieldSizes();
    ReadUint(data, offset, n, 8, rest);
  }

  lemma ReadU8(data: seq<Byte>, offset: int, n: Byte, rest: seq<Byte>)
    requires Ahead(data, offset, EncodeUint(n, 1) + rest)
    ensures ParseU8(data, offset) == (n, offset + 1) && Ahead(data, offset + 1, rest)
  {
    Consumed(data, offset, EncodeUint(n, 1), rest);
    assert data[offset] == data[offset..offset + 1][0];
  }

  lemma ReadU16(data: seq<Byte>, offset: int, n: nat, rest: seq<Byte>)
    requires n < 0x1_0000 && Ahead(data, offset, EncodeUint(n, 2) + rest)
    ensures ParseU16LE(data, offset) == (n, offset + 2) && Ahead(data, offset + 2, rest)
  {
    assert Pow2(8) == 256;
    Squared(8, 256);
    ReadUint(data, offset, n, 2, rest);
  }

  lemma ReadU128(data: seq<Byte>, offset: int, n: nat, rest: seq<Byte>)
    requires n < TWO_64 * TWO_64 && Ahead(data, offset, EncodeUint(n, 16) + rest)
    ensures ParseU128LE(data, offset).0.ToBigInt() == n && ParseU128LE(data, offset).1 == offset + 16
    ensures Ahead(data, offset + 16, rest)
  {
    WordSizes();
    Pow2Add(64, 64);
    Consumed(data, offset, EncodeUint(n, 16), rest);
    DecodeEncoded(n, 16);
    U128IsWhole(data, offset);
  }

  lemma ReadI64(data: seq<Byte>, offset: int, n: int, rest: seq<Byte>)
    requires -TWO_63 <= n < TWO_63 && Ahead(data, offset, EncodeI64(n) + rest)
    ensures ParseI64LE(data, offset) == (n, offset + 8) && Ahead(data, offset + 8, rest)
  {
    FieldSizes();
    ReadUint(data, offset, if n < 0 then n + TWO_64 else n, 8, rest);
  }

  lemma ReadBool(data: seq<Byte>, offset: int, b: bool, rest: seq<Byte>)
    requires Ahead(data, offset, EncodeBool(b) + rest)
    ensures ParseBool(data, offset) == (b, offset + 1) && Ahead(data, offset + 1, rest)
  {
    Consumed(data, offset, EncodeBool(b), rest);
    assert data[offset] == data[offset..offset + 1][0];
  }

  lemma ReadPubkey(data: seq<Byte>, offset: int, key: seq<Byte>, rest: seq<Byte>)
    requires |key| == 32 && Ahead(data, offset, key + rest)
    ensures ParsePubkey(data, offset) == (key, offset + 32) && Ahead(data, offset + 32, rest)
  {
    Consumed(data, offset, key, rest);
  }

  lemma Assoc(a: seq<Byte>, b: seq<Byte>, c: seq<Byte>)
    ensures (a + b) + c == a + (b + c)
  {
  }

  lemma ReadString(data: seq<Byte>, offset: int, s: seq<Byte>, rest: seq<Byte>)
    requires |s| < TWO_32 && Ahead(data, offset, EncodeString(s) + rest)
    ensures ParseString(data, offset) == (s, offset + 4 + |s|) && Ahead(data, offset + 4 + |s|, rest)
  {
    var head := Encoded(|s|, 4);
    Assoc(head, s, rest);
    Consumed(data, offset, head, s + rest);
    assert LittleEndian(head) == |s| by {
      FieldSizes();
      DecodeEncoded(|s|, 4);
    }
    Consumed(data, offset + 4, s, rest);
  }

  // ----- What a read says about the data -----

  lemma Cut(data: seq<Byte>, i: nat, j: nat, n: nat)
    requires i <= j <= n <= |data|
    ensures data[i..n] == data[i..j] + data[j..n]
  {
  }

  /** The whole string lies in the data. */
  predicate StringFits(data: seq<Byte>, offset: int) {
    0 <= offset && offset + 4 <= |data| && offset + 4 + LittleEndian(data[offset..offset + 4]) <= |data|
  }

  /** Encoding what was read gives back the bytes consumed exactly when the string
      lay in the data: an overrun is not reported, it reads as empty. */
  lemma StringReencodes(data: seq<Byte>, offset: nat)
    requires offset <= |data|
    ensures var (s, next) := ParseString(data, offset);
      EncodeString(s) == data[offset..next] <==> StringFits(data, offset)
  {
    if offset + 4 <= |data| {
      var head := data[offset..offset + 4];
      EncodeDecoded(head);
      var length := LittleEndian(head);
      if offset + 4 + length <= |data| {
        assert data[offset..offset + 4 + length] == head + data[offset + 4..offset + 4 + length];
      } else {
        DecodeEncoded(0, 4);
        assert EncodeString([]) == Encoded(0, 4);
      }
    }
  }

  lemma UintReencodes(data: seq<Byte>, offset: nat, width: nat)
    requires offset + width <= |data|
    ensures EncodeUint(ParseUint(data, offset, width).0, width) == data[offset..offset + width]
    ensures ParseUint(data, offset, width).0 < Pow2(8 * width)
  {
    EncodeDecoded(data[offset..offset + width]);
  }

  lemma U64Reencodes(data: seq<Byte>, offset: nat)
    requires offset + 8 <= |data|
    ensures ParseU64LE(data, offset).0 < TWO_64
    ensures EncodeUint(ParseU64LE(data, offset).0, 8) == data[offset..offset + 8]
  {
    FieldSizes();
    UintReencodes(data, offset, 8);
  }

  lemma I64Reencodes(data: seq<Byte>, offset: nat)
    requires offset + 8 <= |data|
    ensures -TWO_63 <= ParseI64LE(data, offset).0 < TWO_63
    ensures EncodeI64(ParseI64LE(data, offset).0) == data[offset..offset + 8]
  {
    FieldSizes();
    UintReencodes(data, offset, 8);
  }

  lemma BoolReencodes(data: seq<Byte>, offset: nat)
    requires offset < |data|
    ensures EncodeBool(ParseBool(data, offset).0) == data[offset..offset + 1] <==> data[offset] <= 1
  {
  }

  // ----- Event discriminators -----

  /** A payload begins with its own discriminator, and with another one only when
      their first bytes agree. */
  lemma Payload(disc: seq<Byte>, body: seq<Byte>, other: seq<Byte>)
    requires |disc| == |other| == 8
    ensures disc <= disc + body && (disc + body)[8..] == body
    ensures other <= disc + body ==> other[0] == disc[0]
  {
  }

  ghost predicate StartsWith(data: seq<Byte>, expected: seq<Byte>) {
    expected <= data
  }

  method MatchDiscriminatorBytes(data: seq<Byte>, expected: seq<Byte>) returns (matches: bool)
    ensures matches <==> StartsWith(data, expected)
  {
    if |data| < |expected| {
      return false;
    }
    for i := 0 to |expected|
      invariant forall j :: 0 <= j < i ==> data[j] == expected[j]
    {
      if data[i] != expected[i] {
        return false;
      }
    }
    matches := true;
  }
}
