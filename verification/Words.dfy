/** Big-endian EVM words: unsigned and two's-complement integers as bytes. */
module Words {
  import opened Arithmetic

  type Byte = n: int | 0 <= n < 256

  function Pow2(n: nat): (p: int)
    ensures p > 0
  {
    if n == 0 then 1 else 2 * Pow2(n - 1)
  }

  lemma {:induction false} Pow2Add(a: nat, b: nat)
    ensures Pow2(a + b) == Pow2(a) * Pow2(b)
  {
    if a > 0 {
      Pow2Add(a - 1, b);
      assert Pow2(a) * Pow2(b) == 2 * (Pow2(a - 1) * Pow2(b));
    }
  }

  lemma Pow2Byte(n: nat)
    ensures Pow2(8 * (n + 1)) == 256 * Pow2(8 * n)
  {
    Pow2Add(8, 8 * n);
    assert Pow2(8) == 256;
  }

  const TWO_32: int := 0x1_0000_0000
  const TWO_63: int := 0x8000_0000_0000_0000
  const TWO_64: int := 0x1_0000_0000_0000_0000
  const TWO_192: int := 0x1_0000_0000_0000_0000_0000_0000_0000_0000_0000_0000_0000_0000
  const TWO_255: int := 0x8000_0000_0000_0000_0000_0000_0000_0000_0000_0000_0000_0000_0000_0000_0000_0000
  const TWO_256: int := 0x1_0000_0000_0000_0000_0000_0000_0000_0000_0000_0000_0000_0000_0000_0000_0000_0000

  lemma Squared(n: nat, p: int)
    requires Pow2(n) == p
    ensures Pow2(n + n) == p * p
  {
    Pow2Add(n, n);
  }

  lemma Halved(n: nat, p: int)
    requires n > 0 && Pow2(n) == 2 * p
    ensures Pow2(n - 1) == p
  {
  }

  lemma SmallSizes()
    ensures Pow2(32) == TWO_32 && Pow2(64) == TWO_64 && Pow2(63) == TWO_63
  {
    assert Pow2(8) == 256;
    Squared(8, 256);
    Squared(16, 0x1_0000);
    Squared(32, TWO_32);
    Halved(64, TWO_63);
  }

  lemma WordSizes()
    ensures Pow2(32) == TWO_32 && Pow2(64) == TWO_64 && Pow2(63) == TWO_63
    ensures Pow2(256) == TWO_256 && Pow2(255) == TWO_255
  {
    SmallSizes();
    Squared(64, TWO_64);
    Squared(128, TWO_64 * TWO_64);
    Halved(256, TWO_255);
  }

  // ----- Unsigned -----

  /** The bytes as an unsigned big-endian number. */
  function BytesToBigInt(b: seq<Byte>): nat {
    if b == [] then 0 else 256 * BytesToBigInt(b[..|b| - 1]) + b[|b| - 1]
  }

  lemma {:induction false} BytesBound(b: seq<Byte>)
    ensures BytesToBigInt(b) < Pow2(8 * |b|)
  {
    if b != [] {
      BytesBound(b[..|b| - 1]);
      Pow2Byte(|b| - 1);
    }
  }

  lemma {:induction false} LeadingByte(b: seq<Byte>)
    requires b != []
    ensures BytesToBigInt(b) == b[0] * Pow2(8 * (|b| - 1)) + BytesToBigInt(b[1..])
  {
    if |b| == 1 {
      assert b[..0] == [] && b[1..] == [];
    } else {
      var n := |b| - 1;
      LeadingByte(b[..n]);
      assert b[..n][1..] == b[1..][..n - 1] && b[1..][n - 1] == b[n];
      Pow2Byte(n - 1);
      assert 256 * (b[0] * Pow2(8 * (n - 1))) == b[0] * (256 * Pow2(8 * (n - 1)));
    }
  }

  /** The shortest big-endian bytes of a number. */
  function Bytes(n: nat): seq<Byte> {
    if n == 0 then [] else Bytes(n / 256) + [n % 256]
  }

  function Zeros(n: nat): seq<Byte> {
    seq(n, i => 0)
  }

  function Abs(x: int): nat {
    if x < 0 then -x else x
  }

  /** At least one word, padded with zeros on the left; the sign is lost. */
  function BigIntToBytes(x: int): seq<Byte> {
    var b := Bytes(Abs(x));
    if |b| < 32 then Zeros(32 - |b|) + b else b
  }

  /** The same, copying into a buffer of one word. */
  method FillWord(x: int) returns (word: array<Byte>)
    ensures word[..] == BigIntToBytes(x)
  {
    var b := Bytes(Abs(x));
    var n := |b|;
    if n >= 32 {
      word := new Byte[n](i requires 0 <= i < n => b[i]);
      assert word[..] == b;
      return;
    }
    word := new Byte[32](_ => 0);
    for i := 0 to n
      invariant forall j :: 0 <= j < 32 ==> word[j] == if 32 - n <= j < 32 - n + i then b[j - (32 - n)] else 0
    {
      word[32 - n + i] := b[i];
    }
    assert word[..] == Zeros(32 - n) + b;
  }

  lemma {:induction false} BytesRoundTrip(n: nat)
    ensures BytesToBigInt(Bytes(n)) == n
  {
    if n > 0 {
      BytesRoundTrip(n / 256);
      assert Bytes(n)[..|Bytes(n)| - 1] == Bytes(n / 256);
    }
  }

  lemma {:induction false} PaddingIsNothing(k: nat, b: seq<Byte>)
    ensures BytesToBigInt(Zeros(k) + b) == BytesToBigInt(b)
  {
    if k == 0 {
      assert Zeros(0) + b == b;
    } else {
      LeadingByte(Zeros(k) + b);
      assert (Zeros(k) + b)[1..] == Zeros(k - 1) + b;
      PaddingIsNothing(k - 1, b);
    }
  }

  lemma {:induction false} BytesLength(n: nat, k: nat)
    ensures |Bytes(n)| <= k <==> n < Pow2(8 * k)
    decreases k
  {
    if n > 0 && k > 0 {
      BytesLength(n / 256, k - 1);
      Pow2Byte(k - 1);
    }
  }

  /** The bytes of a number are one word exactly below 2^256, and reading them back
      gives the number exactly when it is not negative. */
  lemma WordRoundTrip(x: int)
    ensures |BigIntToBytes(x)| == 32 <==> Abs(x) < TWO_256
    ensures BytesToBigInt(BigIntToBytes(x)) == x <==> x >= 0
  {
    var b := Bytes(Abs(x));
    WordSizes();
    BytesRoundTrip(Abs(x));
    BytesLength(Abs(x), 32);
    if |b| < 32 {
      PaddingIsNothing(32 - |b|, b);
    }
  }

  // ----- Signed -----

  /** The bytes as a signed number: the top bit of the first byte decides. */
  function ToSignedInt256(b: seq<Byte>): int {
    var v := BytesToBigInt(b);
    if |b| > 0 && b[0] / 128 % 2 != 0 then v - TWO_256 else v
  }

  /** Two's complement in one word. */
  function FromSignedInt256(x: int): seq<Byte>
    requires -TWO_255 <= x < TWO_255
  {
    BigIntToBytes(if x < 0 then x + TWO_256 else x)
  }

  lemma Halves(n: nat)
    requires n >= 8
    ensures Pow2(n) == 2 * Pow2(n - 1) && Pow2(n - 1) == 128 * Pow2(n - 8)
  {
    Pow2Add(7, n - 8);
    assert Pow2(7) == 128;
  }

  lemma TopBit(b: seq<Byte>)
    requires b != []
    ensures b[0] / 128 % 2 != 0 <==> BytesToBigInt(b) >= Pow2(8 * |b| - 1)
    ensures BytesToBigInt(b) < Pow2(8 * |b|)
  {
    var first: int, p := b[0], Pow2(8 * (|b| - 1));
    LeadingByte(b);
    BytesBound(b[1..]);
    BytesBound(b);
    Halves(8 * |b|);
    if first >= 128 {
      MulMono(128, first, p);
    } else {
      MulMono(first, 127, p);
    }
  }

  lemma OneRepresentative(x: int, y: int, k: int, h: int)
    requires -h <= x < h && -h <= y < h && x - y == k * (2 * h)
    ensures x == y
  {
    if k >= 1 {
      MulMono(1, k, 2 * h);
    } else if k <= -1 {
      MulMono(k, -1, 2 * h);
    }
  }

  ghost predicate Congruent(x: int, y: int, m: int) {
    exists k: int :: x - y == k * m
  }

  /** On a word the signed reading is the number in [-2^255, 2^255) that differs
      from the unsigned one by a multiple of 2^256, and there is only one. */
  lemma SignedReading(b: seq<Byte>, x: int)
    requires |b| == 32
    ensures -TWO_255 <= ToSignedInt256(b) < TWO_255
    ensures -TWO_255 <= x < TWO_255 ==> (Congruent(x, BytesToBigInt(b), TWO_256) <==> x == ToSignedInt256(b))
  {
    TopBit(b);
    WordSizes();
    var u, r := BytesToBigInt(b), ToSignedInt256(b);
    var j := if r == u then 0 else -1;
    assert r - u == j * TWO_256;
    if -TWO_255 <= x < TWO_255 && Congruent(x, u, TWO_256) {
      var k: int :| x - u == k * TWO_256;
      assert x - r == (k - j) * (2 * TWO_255);
      OneRepresentative(x, r, k - j, TWO_255);
    }
  }

  /** Signed reading inverts two's-complement encoding. */
  lemma SignedRoundTrip(x: int)
    requires -TWO_255 <= x < TWO_255
    ensures |FromSignedInt256(x)| == 32 && ToSignedInt256(FromSignedInt256(x)) == x
  {
    WordSizes();
    WordRoundTrip(if x < 0 then x + TWO_256 else x);
    TopBit(FromSignedInt256(x));
  }

  /** The low 64 bits, as a signed number. */
  function Int64(x: int): int {
    (x + TWO_63) % TWO_64 - TWO_63
  }

  lemma FitsInt64(x: int)
    requires -TWO_63 <= x < TWO_63
    ensures Int64(x) == x
  {
  }

  function ToSignedInt64(b: seq<Byte>): int {
    if b == [] then 0 else Int64(ToSignedInt256(b))
  }

  lemma ModShift(x: int, m: int, k: int)
    requires m > 0
    ensures (x + k * m) % m == x % m
  {
    var q := x / m;
    assert x + k * m == m * (q + k) + x % m;
    DivModUnique(x + k * m, m, q + k, x % m);
  }

  lemma Int64Shift(v: int, k: int)
    requires 0 <= v < TWO_64
    ensures Int64(v + k * TWO_64) == if v < TWO_63 then v else v - TWO_64
  {
    assert v + k * TWO_64 + TWO_63 == v + TWO_63 + k * TWO_64;
    ModShift(v + TWO_63, TWO_64, k);
  }

  /** On eight bytes the detour over 256 bits is harmless: the result is the signed
      64-bit number they encode. */
  lemma Signed64(b: seq<Byte>)
    requires |b| == 8
    ensures ToSignedInt64(b) == if BytesToBigInt(b) < TWO_63 then BytesToBigInt(b) else BytesToBigInt(b) - TWO_64
  {
    WordSizes();
    BytesBound(b);
    var v, signed := BytesToBigInt(b), ToSignedInt256(b);
    Int64Shift(v, if signed == v then 0 else -TWO_192);
  }
}
