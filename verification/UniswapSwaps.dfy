/** Uniswap swap logs: the two records of a swap, built at once when the pool's
    tokens are known and otherwise by the worker of the pending queue. */
module UniswapSwaps {
  import opened Outcomes
  import opened Words
  import opened PendingQueue
  import opened Protocols
  import SyntheticTimestamp

  /** The tokens of a pool; a placeholder has empty ones. */
  datatype PoolMeta = PoolMeta(token0: string, token1: string) {
    predicate Resolved() { token0 != "" && token1 != "" }
  }

  const PLACEHOLDER := PoolMeta("", "")

  datatype Role = Token0 | Token1

  datatype SwapRecord = SwapRecord(
    tokenAddr: string, poolAddr: string, protocol: string, role: Role, side: Side, txHash: string,
    rawAmount: int, tokenDecimals: Option<int>, pairedTokenAddr: string,
    blockNumber: int, blockTime: int, logIndex: int)

  /** A swap log in its transaction. */
  datatype SwapLog = SwapLog(
    version: Version, pool: string, data: seq<Byte>, logIndex: int,
    txHash: string, blockNumber: int, blockTime: int)

  // ----- Amounts -----

  /** Per token the amount and whether it went into the pool or out of it. */
  datatype Legs = Legs(amount0: nat, side0: Side, amount1: nat, side1: Side)

  function V2Legs(data: seq<Byte>): Option<Legs> {
    if |data| < 128 then None
    else
      var amount0In, amount1In := BytesToBigInt(data[0..32]), BytesToBigInt(data[32..64]);
      var amount0Out, amount1Out := BytesToBigInt(data[64..96]), BytesToBigInt(data[96..128]);
      Some(Legs(if amount0In == 0 then amount0Out else amount0In, if amount0In == 0 then Out else In,
                if amount1In == 0 then amount1Out else amount1In, if amount1In == 0 then Out else In))
  }

  function V3Legs(data: seq<Byte>): Option<Legs> {
    if |data| < 160 then None
    else
      var amount0, amount1 := ToSignedInt256(data[0..32]), ToSignedInt256(data[32..64]);
      Some(Legs(Abs(amount0), if amount0 < 0 then Out else In, Abs(amount1), if amount1 < 0 then Out else In))
  }

  function LegsOf(log: SwapLog): Option<Legs> {
    if log.version.V2? then V2Legs(log.data) else V3Legs(log.data)
  }

  /** What an amount and a side say about the pool's balance. */
  function Signed(amount: nat, side: Side): int {
    var n: int := amount;
    if side.In? then n else -n
  }

  /** The legs of a V3 swap are the log's signed amounts. */
  lemma V3LegsAreExact(data: seq<Byte>)
    requires |data| >= 160
    ensures var legs := V3Legs(data).value;
      && Signed(legs.amount0, legs.side0) == ToSignedInt256(data[0..32])
      && Signed(legs.amount1, legs.side1) == ToSignedInt256(data[32..64])
  {
  }

  /** The legs of a V2 swap are the net flow of each token exactly when the token
      did not move both ways; of a token that did, what went out is not recorded. */
  lemma V2LegsAreNet(data: seq<Byte>)
    requires |data| >= 128
    ensures var legs := V2Legs(data).value;
      var in0, in1 := BytesToBigInt(data[0..32]), BytesToBigInt(data[32..64]);
      var out0, out1 := BytesToBigInt(data[64..96]), BytesToBigInt(data[96..128]);
      && (Signed(legs.amount0, legs.side0) == in0 - out0 <==> in0 == 0 || out0 == 0)
      && (Signed(legs.amount1, legs.side1) == in1 - out1 <==> in1 == 0 || out1 == 0)
  {
  }

  /** Two of token0 in, one of token0 out and five of token1 out. */
  const BOTH_WAYS: seq<Byte> := BigIntToBytes(2) + BigIntToBytes(0) + BigIntToBytes(1) + BigIntToBytes(5)

  /** The pool gained one of token0; the swap is recorded as a gain of two. */
  lemma BothWaysRecorded()
    ensures |BOTH_WAYS| == 128
    ensures BytesToBigInt(BOTH_WAYS[0..32]) - BytesToBigInt(BOTH_WAYS[64..96]) == 1
    ensures V2Legs(BOTH_WAYS).value == Legs(2, In, 5, Out)
  {
    WordRoundTrip(2);
    WordRoundTrip(0);
    WordRoundTrip(1);
    WordRoundTrip(5);
    assert BOTH_WAYS[0..32] == BigIntToBytes(2) && BOTH_WAYS[32..64] == BigIntToBytes(0);
    assert BOTH_WAYS[64..96] == BigIntToBytes(1) && BOTH_WAYS[96..128] == BigIntToBytes(5);
  }

  // ----- Records -----

  function BuildSwapRecords(
    protocol: string, pool: string, txHash: string, blockNumber: int, blockTime: int, logIndex: int, meta: PoolMeta,
    amount0: int, side0: Side, decimals0: Option<int>, amount1: int, side1: Side, decimals1: Option<int>): seq<SwapRecord>
  {
    [SwapRecord(meta.token0, pool, protocol, Token0, side0, txHash, amount0, decimals0, meta.token1, blockNumber, blockTime, logIndex),
     SwapRecord(meta.token1, pool, protocol, Token1, side1, txHash, amount1, decimals1, meta.token0, blockNumber, blockTime, logIndex)]
  }

  /** What the hot path writes for a log whose pool is known. */
  function HotRecords(log: SwapLog, meta: PoolMeta, decimals0: Option<int>, decimals1: Option<int>): seq<SwapRecord> {
    match LegsOf(log)
    case None => []
    case Some(legs) =>
      BuildSwapRecords(Protocol(log.version), log.pool, log.txHash, log.blockNumber, log.blockTime, log.logIndex, meta,
                       legs.amount0, legs.side0, decimals0, legs.amount1, legs.side1, decimals1)
  }

  /** What a record says about the pool's balance of its token. */
  function Flow(r: SwapRecord): int {
    if r.side.In? then r.rawAmount else -r.rawAmount
  }

  ghost predicate SameSwap(r: SwapRecord, log: SwapLog) {
    && r.poolAddr == log.pool && r.protocol == Protocol(log.version) && r.txHash == log.txHash
    && r.blockNumber == log.blockNumber && r.blockTime == log.blockTime && r.logIndex == log.logIndex
  }

  /** What is recorded of a token that moved in and out: the net flow when it moved one
      way only, and the inflow when both. */
  ghost predicate FlowOf(flow: int, amountIn: nat, amountOut: nat) {
    (amountIn == 0 || amountOut == 0 ==> flow == amountIn - amountOut) && (amountIn > 0 ==> flow == amountIn)
  }

  /** The two records of a swap are its double entry: one for each token, naming the
      other, and each with its own decimals and the amount and direction the log gives it. */
  lemma DoubleEntry(log: SwapLog, meta: PoolMeta, decimals0: Option<int>, decimals1: Option<int>)
    requires LegsOf(log).Some?
    ensures var r := HotRecords(log, meta, decimals0, decimals1);
      && |r| == 2 && SameSwap(r[0], log) && SameSwap(r[1], log)
      && r[0].role.Token0? && r[0].tokenAddr == meta.token0 == r[1].pairedTokenAddr
      && r[1].role.Token1? && r[1].tokenAddr == meta.token1 == r[0].pairedTokenAddr
      && r[0].tokenDecimals == decimals0 && r[1].tokenDecimals == decimals1
      && (log.version.V3? ==>
            Flow(r[0]) == ToSignedInt256(log.data[0..32]) && Flow(r[1]) == ToSignedInt256(log.data[32..64]))
      && (log.version.V2? ==>
            && FlowOf(Flow(r[0]), BytesToBigInt(log.data[0..32]), BytesToBigInt(log.data[64..96]))
            && FlowOf(Flow(r[1]), BytesToBigInt(log.data[32..64]), BytesToBigInt(log.data[96..128])))
  {
    if log.version.V3? {
      V3LegsAreExact(log.data);
    } else {
      V2LegsAreNet(log.data);
    }
  }

  function PointTime(r: SwapRecord): int
    requires r.blockTime >= 0
  {
    SyntheticTimestamp.SyntheticTimestampNanos(r.blockTime, r.logIndex,
      if r.role.Token0? then SyntheticTimestamp.Role.Token0 else SyntheticTimestamp.Role.Token1)
  }

  ghost predicate InTimestampRange(log: SwapLog) {
    0 <= log.blockTime <= 9_223_372_035 && 0 <= log.logIndex < 100_000_000
  }

  /** No record overwrites another point of the time series, even in a pool whose
      two tokens are one: records with the same timestamp are the same leg of logs
      with the same block time and log index. */
  lemma RecordsDoNotOverwrite(a: SwapLog, b: SwapLog, metaA: PoolMeta, metaB: PoolMeta, i: nat, j: nat)
    requires LegsOf(a).Some? && LegsOf(b).Some? && InTimestampRange(a) && InTimestampRange(b) && i < 2 && j < 2
    ensures |HotRecords(a, metaA, None, None)| == 2 == |HotRecords(b, metaB, None, None)|
    ensures PointTime(HotRecords(a, metaA, None, None)[i]) == PointTime(HotRecords(b, metaB, None, None)[j])
       <==> a.blockTime == b.blockTime && a.logIndex == b.logIndex && i == j
  {
    DoubleEntry(a, metaA, None, None);
    DoubleEntry(b, metaB, None, None);
    var r, s := HotRecords(a, metaA, None, None)[i], HotRecords(b, metaB, None, None)[j];
    SyntheticTimestamp.TimestampsOrder(
      r.blockTime, r.logIndex, if i == 0 then SyntheticTimestamp.Role.Token0 else SyntheticTimestamp.Role.Token1,
      s.blockTime, s.logIndex, if j == 0 then SyntheticTimestamp.Role.Token0 else SyntheticTimestamp.Role.Token1);
  }

  /** What it queues for a log whose pool is not. */
  function PendingMessage(log: SwapLog, legs: Legs): Message {
    Message(log.pool, Protocol(log.version), log.txHash, log.blockNumber, log.blockTime, log.logIndex,
            legs.amount0, legs.side0, legs.amount1, legs.side1, 0)
  }

  function MessageRecords(m: Message, meta: PoolMeta, decimals0: Option<int>, decimals1: Option<int>): seq<SwapRecord> {
    BuildSwapRecords(m.protocol, m.pool, m.txHash, m.blockNumber, m.blockTime, m.logIndex, meta,
                     m.amount0, m.side0, decimals0, m.amount1, m.side1, decimals1)
  }

  /** What the worker writes for the messages of one pool. */
  function WorkerRecords(msgs: seq<Message>, meta: PoolMeta, decimals0: Option<int>, decimals1: Option<int>): seq<SwapRecord> {
    if msgs == [] then []
    else WorkerRecords(msgs[..|msgs| - 1], meta, decimals0, decimals1) + MessageRecords(msgs[|msgs| - 1], meta, decimals0, decimals1)
  }

  /** Decimals are filled in when somebody happens to know them. */
  function Strip(records: seq<SwapRecord>): seq<SwapRecord> {
    seq(|records|, i requires 0 <= i < |records| => records[i].(tokenDecimals := None))
  }

  /** The records the logs would have had, had every pool's tokens been known when
      they were scanned. */
  ghost function Ideal(logs: seq<SwapLog>, truth: string -> PoolMeta): seq<SwapRecord> {
    if logs == [] then []
    else
      var log := logs[|logs| - 1];
      Ideal(logs[..|logs| - 1], truth) + HotRecords(log, truth(log.pool), None, None)
  }

  /** A queued message comes from this log. */
  ghost predicate ComesFrom(m: Message, log: SwapLog) {
    LegsOf(log).Some? && m == PendingMessage(log, LegsOf(log).value).(enqueuedAt := m.enqueuedAt)
  }

  /** Deferring a batch of swaps changes nothing but the decimals. */
  lemma {:induction false} DeferredIsImmediate(msgs: seq<Message>, logs: seq<SwapLog>, truth: string -> PoolMeta, meta: PoolMeta,
                                              decimals0: Option<int>, decimals1: Option<int>)
    requires |msgs| == |logs| && forall i :: 0 <= i < |msgs| ==> ComesFrom(msgs[i], logs[i]) && truth(logs[i].pool) == meta
    ensures Strip(WorkerRecords(msgs, meta, decimals0, decimals1)) == Ideal(logs, truth)
    ensures |WorkerRecords(msgs, meta, decimals0, decimals1)| == 2 * |msgs|
  {
    if msgs != [] {
      var n := |msgs| - 1;
      DeferredIsImmediate(msgs[..n], logs[..n], truth, meta, decimals0, decimals1);
      assert ComesFrom(msgs[n], logs[n]);
      StripAppend(WorkerRecords(msgs[..n], meta, decimals0, decimals1), MessageRecords(msgs[n], meta, decimals0, decimals1));
    }
  }

  lemma StripAppend(a: seq<SwapRecord>, b: seq<SwapRecord>)
    ensures Strip(a + b) == Strip(a) + Strip(b)
  {
  }

  // ----- The pool cache -----

  type Cache = map<string, PoolMeta>

  /** How much the cache knows about a pool. */
  function Level(cache: Cache, pool: string): nat {
    if pool !in cache then 0 else if !cache[pool].Resolved() then 1 else 2
  }

  datatype CacheOp =
    | Warmup(pool: string, meta: PoolMeta)
    | Lookup(pool: string, redis: Option<PoolMeta>)
    | Lazy(pool: string)
    | Created(pool: string, meta: PoolMeta)
    | WorkerResolved(pool: string, meta: PoolMeta)

  /** Pool creation events and resolved pools carry both token addresses. */
  predicate ValidOp(op: CacheOp) {
    (op.Created? || op.WorkerResolved?) ==> op.meta.Resolved()
  }

  /** The cache after an operation, and whether it produced a placeholder row. */
  function CacheStep(cache: Cache, op: CacheOp): (Cache, bool) {
    match op
    case Warmup(pool, meta) => (if meta.Resolved() && pool !in cache then cache[pool := meta] else cache, false)
    case Lookup(pool, redis) =>
      (if Level(cache, pool) < 2 && redis.Some? && redis.value.Resolved() then cache[pool := redis.value] else cache, false)
    case Lazy(pool) => if pool in cache then (cache, false) else (cache[pool := PLACEHOLDER], true)
    case Created(pool, meta) => (cache[pool := meta], false)
    case WorkerResolved(pool, meta) => (cache[pool := meta], false)
  }

  function CacheRun(cache: Cache, ops: seq<CacheOp>): Cache {
    if ops == [] then cache else CacheStep(CacheRun(cache, ops[..|ops| - 1]), ops[|ops| - 1]).0
  }

  /** How many placeholder rows a run produced for a pool. */
  function Placeholders(cache: Cache, ops: seq<CacheOp>, pool: string): nat {
    if ops == [] then 0
    else
      var before, op := ops[..|ops| - 1], ops[|ops| - 1];
      Placeholders(cache, before, pool) + if op.pool == pool && CacheStep(CacheRun(cache, before), op).1 then 1 else 0
  }

  /** Under any interleaving a pool only moves from absent to placeholder to
      resolved; at most one placeholder row is produced for it, and none once the
      cache knows it. */
  lemma {:induction false} CacheOnlyLearns(cache: Cache, ops: seq<CacheOp>, pool: string)
    requires forall op :: op in ops ==> ValidOp(op)
    ensures Level(CacheRun(cache, ops), pool) >= Level(cache, pool)
    ensures Placeholders(cache, ops, pool) <= if pool in cache then 0 else 1
    ensures Placeholders(cache, ops, pool) == 1 ==> Level(CacheRun(cache, ops), pool) >= 1
  {
    if ops != [] {
      var before := ops[..|ops| - 1];
      assert forall op :: op in before ==> op in ops;
      CacheOnlyLearns(cache, before, pool);
      assert ValidOp(ops[|ops| - 1]);
    }
  }

  /** Whether an operation brings a pool's tokens: the warm-up only those of pools not seen
      yet, Redis only those it has both of. */
  predicate Teaches(cache: Cache, op: CacheOp, pool: string) {
    op.pool == pool &&
    match op
    case Warmup(_, meta) => meta.token0 != "" && meta.token1 != "" && pool !in cache
    case Lookup(_, redis) => redis.Some? && redis.value.token0 != "" && redis.value.token1 != ""
    case Lazy(_) => false
    case Created(_, _) => true
    case WorkerResolved(_, _) => true
  }

  /** Some operation of the run did. */
  ghost predicate Taught(cache: Cache, ops: seq<CacheOp>, pool: string) {
    ops != [] &&
    var before, op := ops[..|ops| - 1], ops[|ops| - 1];
    (Taught(cache, before, pool) || Teaches(CacheRun(cache, before), op, pool))
  }

  lemma TeachStep(cache: Cache, op: CacheOp, pool: string)
    requires ValidOp(op)
    ensures Level(CacheStep(cache, op).0, pool) == 2 <==> Level(cache, pool) == 2 || Teaches(cache, op, pool)
  {
  }

  /** A pool's tokens are known after a run exactly when they were before it or some
      operation brought them. */
  lemma {:induction false} KnownIffTaught(cache: Cache, ops: seq<CacheOp>, pool: string)
    requires forall op :: op in ops ==> ValidOp(op)
    ensures Level(CacheRun(cache, ops), pool) == 2 <==> Level(cache, pool) == 2 || Taught(cache, ops, pool)
  {
    if ops != [] {
      var before, op := ops[..|ops| - 1], ops[|ops| - 1];
      assert forall other :: other in before ==> other in ops;
      assert op in ops;
      KnownIffTaught(cache, before, pool);
      TeachStep(CacheRun(cache, before), op, pool);
    }
  }

  /** Known tokens are only overwritten by a creation event or by the worker. */
  lemma {:induction false} KnownTokensStay(cache: Cache, ops: seq<CacheOp>, pool: string)
    requires Level(cache, pool) == 2
    requires forall i :: 0 <= i < |ops| && ops[i].pool == pool ==> !ops[i].Created? && !ops[i].WorkerResolved?
    ensures pool in CacheRun(cache, ops) && CacheRun(cache, ops)[pool] == cache[pool]
  {
    if ops != [] {
      KnownTokensStay(cache, ops[..|ops| - 1], pool);
    }
  }

  // ----- Trade direction -----

  datatype Direction = Buy | Sell | Swap

  /** The rank of a quote asset; negative when the token is none. */
  function DetermineSide(rankIn: int, rankOut: int): Direction {
    if rankOut >= 0 && rankIn < 0 then Sell
    else if rankIn >= 0 && rankOut < 0 then Buy
    else if rankIn >= 0 && rankOut >= 0 then
      if rankOut >= rankIn then Sell else Buy
    else Swap
  }

  /** Trading the other way round has the opposite direction, unless two quote
      assets rank the same: then both ways are sells. */
  lemma OppositeTrades(rankIn: int, rankOut: int)
    ensures DetermineSide(rankIn, rankOut).Buy? ==> DetermineSide(rankOut, rankIn).Sell?
    ensures DetermineSide(rankIn, rankOut).Sell? ==> (DetermineSide(rankOut, rankIn).Buy? <==> rankIn != rankOut)
    ensures DetermineSide(rankIn, rankOut).Swap? <==> rankIn < 0 && rankOut < 0
  {
  }

  /** The rank of a token as a quote asset, by its address. */
  type Ranks = string -> int

  predicate IsQuote(ranks: Ranks, token: string) { ranks(token) >= 0 }

  /** Whether the trader paid token0. */
  predicate ZeroIn(legs: Legs) { legs.side0.In? && legs.amount0 > 0 }

  /** The direction a swap is stored with: that of its tokens when they are known at
      the moment its log is scanned, and plain "swap" when they are not. */
  function DirectionOf(ranks: Ranks, legs: Legs, meta: Option<PoolMeta>): Direction {
    if meta.None? then Swap
    else
      var rank0, rank1 := ranks(meta.value.token0), ranks(meta.value.token1);
      if ZeroIn(legs) then DetermineSide(rank0, rank1) else DetermineSide(rank1, rank0)
  }

  /** What the log says about token0 is that the trader paid it. */
  predicate Paid0(log: SwapLog)
    requires LegsOf(log).Some?
  {
    if log.version.V2? then BytesToBigInt(log.data[0..32]) > 0 else ToSignedInt256(log.data[0..32]) > 0
  }

  /** A trade is a buy when a quote asset was paid for a token that is none, a sell the
      other way round, and a plain swap between two such tokens; between two quote assets
      it is a sell exactly when the one received ranks at least as high. */
  ghost predicate Trades(ranks: Ranks, paid: string, received: string, d: Direction) {
    && (ranks(paid) >= 0 && ranks(received) < 0 ==> d == Buy)
    && (ranks(paid) < 0 && ranks(received) >= 0 ==> d == Sell)
    && (ranks(paid) < 0 && ranks(received) < 0 ==> d == Swap)
    && (ranks(paid) >= 0 && ranks(received) >= 0 ==> d == if ranks(received) >= ranks(paid) then Sell else Buy)
  }

  /** The direction is that of the trade the log's amounts tell of. */
  lemma TradeDirection(ranks: Ranks, log: SwapLog, meta: PoolMeta)
    requires LegsOf(log).Some?
    ensures var d := DirectionOf(ranks, LegsOf(log).value, Some(meta));
      if Paid0(log) then Trades(ranks, meta.token0, meta.token1, d) else Trades(ranks, meta.token1, meta.token0, d)
  {
    assert ZeroIn(LegsOf(log).value) <==> Paid0(log);
  }

  /** Knowing the tokens makes no difference exactly when neither is a quote asset. */
  lemma DirectionSettles(ranks: Ranks, legs: Legs, meta: PoolMeta)
    ensures DirectionOf(ranks, legs, Some(meta)) == DirectionOf(ranks, legs, None)
       <==> !IsQuote(ranks, meta.token0) && !IsQuote(ranks, meta.token1)
  {
    OppositeTrades(ranks(meta.token0), ranks(meta.token1));
    OppositeTrades(ranks(meta.token1), ranks(meta.token0));
  }
}
