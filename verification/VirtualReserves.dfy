/** Reserve snapshots: the amounts of a V2 Sync log, and the fixed-point virtual
    reserves of a V3 pool at its current price. */
module VirtualReserves {
  import opened Arithmetic
  import opened Cursor
  import opened Outcomes
  import opened Protocols
  import opened UpsertTables
  import opened Words

  const Q96: int := 0x1_0000_0000_0000_0000_0000_0000

  datatype Reserves = Reserves(amount0: nat, amount1: nat)

  /** Both amounts rounded down; the divisions are of non-negative numbers. */
  function ReservesAt(liquidity: nat, sqrtPriceX96: nat): Option<Reserves> {
    if sqrtPriceX96 == 0 || liquidity == 0 then None
    else Some(Reserves(liquidity * Q96 / sqrtPriceX96, liquidity * sqrtPriceX96 / Q96))
  }

  /** The reserve snapshot of a swap log: price and liquidity are its third and
      fourth words. */
  function ParseV3Reserve(data: seq<Byte>): Option<Reserves> {
    if |data| < 160 then None
    else ReservesAt(BytesToBigInt(data[96..128]), BytesToBigInt(data[64..96]))
  }

  /** The reserve snapshot of a V2 Sync log. */
  function ParseSync(data: seq<Byte>): Option<Reserves> {
    if |data| < 64 then None else Some(Reserves(BytesToBigInt(data[0..32]), BytesToBigInt(data[32..64])))
  }

  /** Its row, keyed by pool and block time. */
  function ReserveRow(pool: string, time: int, v: Version, r: Reserves): Row<ReserveKey, ReserveCols> {
    Row(ReserveKey(pool, time), ReserveCols(Protocol(v), FormatNat(r.amount0), FormatNat(r.amount1)), None)
  }

  /** Two snapshots of one pool in one block, from two Sync logs or two V3 swaps, are
      two rows with one key: no store takes them in one batch. */
  lemma TwoSnapshotsRefused(pool: string, time: int, v: Version, first: Reserves, second: Reserves)
    ensures !Storable(NO_DATA.(reserves := [ReserveRow(pool, time, v, first), ReserveRow(pool, time, v, second)]))
  {
    SameKeyRefused(ReserveRow(pool, time, v, first), ReserveRow(pool, time, v, second));
  }

  lemma FloorDiv(a: nat, d: nat)
    requires d > 0
    ensures (a / d) * d <= a < (a / d + 1) * d
  {
    assert a == d * (a / d) + a % d;
  }

  lemma MulBoth(a: int, b: int, c: int, d: int)
    requires 0 <= a <= b && 0 <= c <= d
    ensures a * c <= b * d
  {
    MulMono(a, b, c);
    MulMono(c, d, b);
  }

  lemma MulBothStrict(a: int, b: int, c: int, d: int)
    requires 0 <= a < b && 0 <= c < d
    ensures a * c < b * d
  {
    MulMono(a, b, c);
    assert b * d == b * c + b * (d - c);
    assert b * (d - c) >= 1 by { MulBoth(1, b, 1, d - c); }
  }

  lemma Cancel(a: int, b: int, m: int)
    requires m > 0
    ensures a * m <= b * m ==> a <= b
    ensures a * m < b * m ==> a < b
  {
    if a > b {
      assert a * m == b * m + (a - b) * m;
      MulMono(1, a - b, m);
    }
  }

  lemma Swap4(a: int, b: int, c: int, d: int)
    ensures (a * b) * (c * d) == (a * c) * (b * d)
  {
    assert (a * b) * (c * d) == a * (b * (c * d));
    assert b * (c * d) == c * (b * d);
  }

  /** The rounded reserves straddle the curve x * y = L * L. */
  lemma OnTheCurve(liquidity: nat, sqrtPriceX96: nat)
    requires liquidity > 0 && sqrtPriceX96 > 0
    ensures var r := ReservesAt(liquidity, sqrtPriceX96).value;
      r.amount0 * r.amount1 <= liquidity * liquidity < (r.amount0 + 1) * (r.amount1 + 1)
  {
    var l, s := liquidity, sqrtPriceX96;
    var r := ReservesAt(l, s).value;
    var x, y := r.amount0, r.amount1;
    FloorDiv(l * Q96, s);
    FloorDiv(l * s, Q96);
    assert (l * Q96) * (l * s) == (l * l) * (s * Q96) by {
      Swap4(l, Q96, l, s);
      assert Q96 * s == s * Q96;
    }
    assert s * Q96 > 0 by { MulBothStrict(0, s, 0, Q96); }
    MulBoth(x * s, l * Q96, y * Q96, l * s);
    Swap4(x, s, y, Q96);
    Cancel(x * y, l * l, s * Q96);
    MulBothStrict(l * Q96, (x + 1) * s, l * s, (y + 1) * Q96);
    Swap4(x + 1, s, y + 1, Q96);
    Cancel(l * l, (x + 1) * (y + 1), s * Q96);
  }

  /** A swap log of at least five words gives a reserve row exactly when its price
      and liquidity words are not zero, and the row lies on the curve of that
      liquidity, each amount rounded down from what the price gives; a shorter log
      gives none. */
  lemma ReserveOfLog(data: seq<Byte>)
    ensures ParseV3Reserve(data).Some? <==>
      |data| >= 160 && BytesToBigInt(data[64..96]) > 0 && BytesToBigInt(data[96..128]) > 0
    ensures ParseV3Reserve(data).Some? ==>
      var r, l := ParseV3Reserve(data).value, BytesToBigInt(data[96..128]);
      r.amount0 * r.amount1 <= l * l < (r.amount0 + 1) * (r.amount1 + 1)
    ensures ParseV3Reserve(data).Some? ==>
      var r, s, l := ParseV3Reserve(data).value, BytesToBigInt(data[64..96]), BytesToBigInt(data[96..128]);
      && r.amount0 * s <= l * Pow2(96) < (r.amount0 + 1) * s
      && r.amount1 * Pow2(96) <= l * s < (r.amount1 + 1) * Pow2(96)
  {
    if ParseV3Reserve(data).Some? {
      var s, l := BytesToBigInt(data[64..96]), BytesToBigInt(data[96..128]);
      OnTheCurve(l, s);
      Pow96();
      FloorDiv(l * Q96, s);
      FloorDiv(l * s, Q96);
    }
  }

  lemma Pow96()
    ensures Pow2(96) == Q96
  {
    SmallSizes();
    Pow2Add(32, 64);
  }

  /** The amounts in a row's columns are those of the snapshot, in decimal. */
  lemma RowReadsBack(pool: string, time: int, v: Version, r: Reserves)
    ensures var row := ReserveRow(pool, time, v, r);
      && row.key.addr == pool && row.key.time == time
      && row.cols.protocol == (match v case V2 => "uniswap_v2" case V3 => "uniswap_v3")
      && ParseDigits(row.cols.amount0) == Ok(r.amount0) && ParseDigits(row.cols.amount1) == Ok(r.amount1)
  {
    NatRoundTrip(r.amount0);
    NatRoundTrip(r.amount1);
  }

  /** A Sync log gives exactly the reserves it was written with, and so does the row. */
  lemma SyncRoundTrip(amount0: nat, amount1: nat, rest: seq<Byte>, pool: string, time: int)
    requires amount0 < TWO_256 && amount1 < TWO_256
    ensures var r := ParseSync(BigIntToBytes(amount0) + BigIntToBytes(amount1) + rest);
      && r.Some? && r.value.amount0 == amount0 && r.value.amount1 == amount1
      && ParseDigits(ReserveRow(pool, time, V2, r.value).cols.amount0) == Ok(amount0)
      && ParseDigits(ReserveRow(pool, time, V2, r.value).cols.amount1) == Ok(amount1)
  {
    WordRoundTrip(amount0);
    WordRoundTrip(amount1);
    RowReadsBack(pool, time, V2, Reserves(amount0, amount1));
    var data := BigIntToBytes(amount0) + BigIntToBytes(amount1) + rest;
    assert data[0..32] == BigIntToBytes(amount0) && data[32..64] == BigIntToBytes(amount1);
  }

  /** A higher price never means more of token0 or less of token1. */
  lemma MonotoneInPrice(liquidity: nat, low: nat, high: nat)
    requires liquidity > 0 && 0 < low <= high
    ensures var r, r' := ReservesAt(liquidity, low).value, ReservesAt(liquidity, high).value;
      r'.amount0 <= r.amount0 && r.amount1 <= r'.amount1
  {
    var l := liquidity;
    DivisorMono(l * Q96, low, high);
    MulMono(low, high, l);
    DividendMono(low * l, high * l, Q96);
  }

  lemma QuotientBound(q: int, p: int, a: int, d: int)
    requires d > 0 && q * d <= a < (p + 1) * d
    ensures q <= p
  {
    Cancel(q, p + 1, d);
  }

  lemma DivisorMono(a: nat, d: nat, e: nat)
    requires 0 < d <= e
    ensures a / e <= a / d
  {
    var p, q: nat := a / d, a / e;
    FloorDiv(a, d);
    FloorDiv(a, e);
    assert q * d <= q * e by { MulBoth(q, q, d, e); }
    QuotientBound(q, p, a, d);
  }

  lemma DividendMono(a: nat, b: nat, d: nat)
    requires a <= b && d > 0
    ensures a / d <= b / d
  {
    FloorDiv(a, d);
    FloorDiv(b, d);
    Cancel(a / d, b / d + 1, d);
  }
}
