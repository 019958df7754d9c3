/** The Uniswap extractor: its pool cache, its hot path over the logs of a
    transaction, and the worker that resolves the pools it had to defer. */
module UniswapExtraction {
  import opened Outcomes
  import opened PendingQueue
  import opened Protocols
  import opened UniswapSwaps

  // ----- What the hot path makes of a transaction -----

  /** A log the extractor looks at, with what Redis and the token cache answer about
      it, or what another goroutine does to the pool cache in between. */
  datatype Step =
    | SwapSeen(log: SwapLog, redis: Option<PoolMeta>, decimals0: Option<int>, decimals1: Option<int>, elapsed: nat)
    | PoolCreated(pool: string, meta: PoolMeta)
    | Meanwhile(op: CacheOp)

  /** The transaction row of a swap: its log, its number in the transaction and its
      direction, which is part of the row's key. */
  datatype SwapRow = SwapRow(log: SwapLog, swapIndex: nat, direction: Direction)

  /** The pool row of a pool; a placeholder carries no tokens. */
  datatype PoolSeen = PoolSeen(pool: string, meta: PoolMeta)

  /** What is to be stored of a transaction. */
  datatype Rows = Rows(swaps: seq<SwapRow>, records: seq<SwapRecord>, pools: seq<PoolSeen>)

  const NO_ROWS := Rows([], [], [])

  /** The pool cache, the rows so far and the swaps sent to the queue. */
  datatype Extraction = Extraction(cache: Cache, rows: Rows, deferred: seq<SwapLog>)

  /** The pool's tokens, when the cache has both. */
  function Known(cache: Cache, pool: string): Option<PoolMeta> {
    if Level(cache, pool) == 2 then Some(cache[pool]) else None
  }

  function ExtractSwap(ranks: Ranks, x: Extraction, log: SwapLog, redis: Option<PoolMeta>, decimals0: Option<int>, decimals1: Option<int>): Extraction {
    var known := CacheStep(x.cache, Lookup(log.pool, redis)).0;
    if LegsOf(log).None? then x
    else
      var meta := Known(known, log.pool);
      var row := SwapRow(log, |x.rows.swaps|, DirectionOf(ranks, LegsOf(log).value, meta));
      var rows := x.rows.(swaps := x.rows.swaps + [row]);
      if meta.Some? then
        var records := HotRecords(log, meta.value, decimals0, decimals1);
        Extraction(known, rows.(records := rows.records + records), x.deferred)
      else Extraction(known, rows, x.deferred + [log])
  }

  function WithPool(rows: Rows, row: PoolSeen): Rows {
    rows.(pools := rows.pools + [row])
  }

  function ExtractStep(ranks: Ranks, x: Extraction, step: Step): Extraction {
    match step
    case SwapSeen(log, redis, decimals0, decimals1, _) =>
      var y := ExtractSwap(ranks, x, log, redis, decimals0, decimals1);
      var (cache, emitted) := CacheStep(y.cache, Lazy(log.pool));
      if emitted then y.(cache := cache, rows := WithPool(y.rows, PoolSeen(log.pool, PLACEHOLDER))) else y
    case PoolCreated(pool, meta) =>
      x.(cache := CacheStep(x.cache, Created(pool, meta)).0, rows := WithPool(x.rows, PoolSeen(pool, meta)))
    case Meanwhile(op) =>
      x.(cache := CacheStep(x.cache, op).0)
  }

  function Extracted(ranks: Ranks, cache: Cache, steps: seq<Step>): Extraction {
    if steps == [] then Extraction(cache, NO_ROWS, [])
    else ExtractStep(ranks, Extracted(ranks, cache, steps[..|steps| - 1]), steps[|steps| - 1])
  }

  lemma ExtractedSnoc(ranks: Ranks, cache: Cache, steps: seq<Step>, step: Step)
    ensures Extracted(ranks, cache, steps + [step]) == ExtractStep(ranks, Extracted(ranks, cache, steps), step)
  {
    assert (steps + [step])[..|steps|] == steps;
  }

  // ----- Hot path and worker together -----

  /** Whatever the cache knows is true. */
  ghost predicate Agrees(cache: Cache, truth: string -> PoolMeta) {
    forall pool :: pool in cache && cache[pool].Resolved() ==> cache[pool] == truth(pool)
  }

  ghost predicate TrueOp(op: CacheOp, truth: string -> PoolMeta) {
    match op
    case Lookup(pool, redis) => redis.Some? && redis.value.Resolved() ==> redis.value == truth(pool)
    case Lazy(_) => true
    case Warmup(pool, meta) => meta.Resolved() ==> meta == truth(pool)
    case Created(pool, meta) => meta.Resolved() ==> meta == truth(pool)
    case WorkerResolved(pool, meta) => meta.Resolved() ==> meta == truth(pool)
  }

  ghost predicate TrueStep(step: Step, truth: string -> PoolMeta) {
    match step
    case SwapSeen(log, redis, _, _, _) => TrueOp(Lookup(log.pool, redis), truth)
    case PoolCreated(pool, meta) => TrueOp(Created(pool, meta), truth)
    case Meanwhile(op) => TrueOp(op, truth)
  }

  /** The swap logs of a transaction. */
  function SwapLogs(steps: seq<Step>): seq<SwapLog> {
    if steps == [] then []
    else
      var before, step := SwapLogs(steps[..|steps| - 1]), steps[|steps| - 1];
      if step.SwapSeen? then before + [step.log] else before
  }

  lemma MoreStripped(records: seq<SwapRecord>, more: seq<SwapRecord>)
    ensures multiset(Strip(records + more)) == multiset(Strip(records)) + multiset(Strip(more))
  {
    StripAppend(records, more);
  }

  lemma MoreIdeal(logs: seq<SwapLog>, log: SwapLog, truth: string -> PoolMeta)
    ensures multiset(Ideal(logs + [log], truth))
         == multiset(Ideal(logs, truth)) + multiset(HotRecords(log, truth(log.pool), None, None))
  {
    assert (logs + [log])[..|logs|] == logs;
  }

  lemma HotStripped(log: SwapLog, meta: PoolMeta, decimals0: Option<int>, decimals1: Option<int>)
    ensures Strip(HotRecords(log, meta, decimals0, decimals1)) == HotRecords(log, meta, None, None)
    ensures LegsOf(log).None? ==> HotRecords(log, meta, None, None) == []
  {
  }

  lemma TrueOpAgrees(cache: Cache, op: CacheOp, truth: string -> PoolMeta)
    requires Agrees(cache, truth) && TrueOp(op, truth)
    ensures Agrees(CacheStep(cache, op).0, truth)
    ensures op.Lookup? && Level(CacheStep(cache, op).0, op.pool) == 2 ==> CacheStep(cache, op).0[op.pool] == truth(op.pool)
  {
    match op {
      case Lookup(_, _) =>
      case Lazy(_) =>
      case Warmup(_, _) =>
      case Created(_, _) =>
      case WorkerResolved(_, _) =>
    }
  }

  /** The records written at once, apart from their decimals, and those the deferred
      swaps will have. */
  ghost function Due(x: Extraction, truth: string -> PoolMeta): multiset<SwapRecord> {
    multiset(Strip(x.rows.records)) + multiset(Ideal(x.deferred, truth))
  }

  lemma DueStep(ranks: Ranks, x: Extraction, log: SwapLog, redis: Option<PoolMeta>, decimals0: Option<int>, decimals1: Option<int>, truth: string -> PoolMeta)
    requires Agrees(x.cache, truth) && TrueOp(Lookup(log.pool, redis), truth)
    ensures var y := ExtractSwap(ranks, x, log, redis, decimals0, decimals1);
      Agrees(y.cache, truth) && Due(y, truth) == Due(x, truth) + multiset(HotRecords(log, truth(log.pool), None, None))
  {
    TrueOpAgrees(x.cache, Lookup(log.pool, redis), truth);
    var y := ExtractSwap(ranks, x, log, redis, decimals0, decimals1);
    DueOne(x.rows.records, x.deferred, y.rows.records, y.deferred, log, decimals0, decimals1, truth);
  }

  /** A swap that gives nothing, its records now, or a place among the deferred. */
  lemma DueOne(records: seq<SwapRecord>, deferred: seq<SwapLog>, records': seq<SwapRecord>, deferred': seq<SwapLog>,
               log: SwapLog, decimals0: Option<int>, decimals1: Option<int>, truth: string -> PoolMeta)
    requires || (LegsOf(log).None? && records' == records && deferred' == deferred)
             || (records' == records + HotRecords(log, truth(log.pool), decimals0, decimals1) && deferred' == deferred)
             || (records' == records && deferred' == deferred + [log])
    ensures multiset(Strip(records')) + multiset(Ideal(deferred', truth))
         == multiset(Strip(records)) + multiset(Ideal(deferred, truth)) + multiset(HotRecords(log, truth(log.pool), None, None))
  {
    if records' == records && deferred' == deferred + [log] {
      MoreIdeal(deferred, log, truth);
    } else if LegsOf(log).None? {
      HotStripped(log, truth(log.pool), decimals0, decimals1);
    } else {
      RecordedNow(records, log, truth(log.pool), decimals0, decimals1);
    }
  }

  lemma RecordedNow(records: seq<SwapRecord>, log: SwapLog, meta: PoolMeta, decimals0: Option<int>, decimals1: Option<int>)
    ensures multiset(Strip(records + HotRecords(log, meta, decimals0, decimals1)))
         == multiset(Strip(records)) + multiset(HotRecords(log, meta, None, None))
  {
    HotStripped(log, meta, decimals0, decimals1);
    MoreStripped(records, HotRecords(log, meta, decimals0, decimals1));
  }

  /** Whatever the cache knew and whoever taught it in between, as long as it was
      true: the records written at once and those of the deferred swaps are
      together exactly the records of all the transaction's swaps. */
  lemma {:induction false} HotOrDeferred(ranks: Ranks, cache: Cache, steps: seq<Step>, truth: string -> PoolMeta)
    requires Agrees(cache, truth) && forall i :: 0 <= i < |steps| ==> TrueStep(steps[i], truth)
    ensures Agrees(Extracted(ranks, cache, steps).cache, truth)
    ensures Due(Extracted(ranks, cache, steps), truth) == multiset(Ideal(SwapLogs(steps), truth))
  {
    if steps != [] {
      var before, step := steps[..|steps| - 1], steps[|steps| - 1];
      HotOrDeferred(ranks, cache, before, truth);
      DueAfter(ranks, Extracted(ranks, cache, before), SwapLogs(before), step, truth);
    }
  }

  lemma DueAfter(ranks: Ranks, x: Extraction, logs: seq<SwapLog>, step: Step, truth: string -> PoolMeta)
    requires Agrees(x.cache, truth) && TrueStep(step, truth) && Due(x, truth) == multiset(Ideal(logs, truth))
    ensures Agrees(ExtractStep(ranks, x, step).cache, truth)
    ensures Due(ExtractStep(ranks, x, step), truth) == multiset(Ideal(if step.SwapSeen? then logs + [step.log] else logs, truth))
  {
    match step {
      case SwapSeen(log, redis, decimals0, decimals1, _) =>
        DueStep(ranks, x, log, redis, decimals0, decimals1, truth);
        TrueOpAgrees(ExtractSwap(ranks, x, log, redis, decimals0, decimals1).cache, Lazy(log.pool), truth);
        MoreIdeal(logs, log, truth);
      case PoolCreated(pool, meta) => TrueOpAgrees(x.cache, Created(pool, meta), truth);
      case Meanwhile(op) => TrueOpAgrees(x.cache, op, truth);
    }
  }

  // ----- The rows of a transaction -----

  function WellFormed(logs: seq<SwapLog>): seq<SwapLog> {
    if logs == [] then []
    else
      var before, log := WellFormed(logs[..|logs| - 1]), logs[|logs| - 1];
      if LegsOf(log).Some? then before + [log] else before
  }

  ghost predicate Numbered(swaps: seq<SwapRow>, logs: seq<SwapLog>) {
    |swaps| == |logs| && forall k :: 0 <= k < |swaps| ==> swaps[k].log == logs[k] && swaps[k].swapIndex == k
  }

  lemma StepSwaps(ranks: Ranks, x: Extraction, step: Step)
    ensures var swaps, swaps' := x.rows.swaps, ExtractStep(ranks, x, step).rows.swaps;
      if step.SwapSeen? && LegsOf(step.log).Some? then
        && |swaps'| == |swaps| + 1 && swaps' == swaps + [swaps'[|swaps|]]
        && swaps'[|swaps|].log == step.log && swaps'[|swaps|].swapIndex == |swaps|
      else swaps' == swaps
  {
  }

  lemma WellFormedSnoc(logs: seq<SwapLog>, log: SwapLog)
    ensures WellFormed(logs + [log]) == if LegsOf(log).Some? then WellFormed(logs) + [log] else WellFormed(logs)
  {
    assert (logs + [log])[..|logs|] == logs;
  }

  /** Every swap log long enough to be parsed has one transaction row, in log order,
      numbered without gaps; the others have none and use up no number. */
  lemma {:induction false} SwapsAreNumbered(ranks: Ranks, cache: Cache, steps: seq<Step>)
    ensures Numbered(Extracted(ranks, cache, steps).rows.swaps, WellFormed(SwapLogs(steps)))
  {
    if steps != [] {
      var before, step := steps[..|steps| - 1], steps[|steps| - 1];
      SwapsAreNumbered(ranks, cache, before);
      StepSwaps(ranks, Extracted(ranks, cache, before), step);
      if step.SwapSeen? {
        WellFormedSnoc(SwapLogs(before), step.log);
      }
    }
  }

  ghost predicate PoolsInOrder(cache: Cache, x: Extraction) {
    var pools := x.rows.pools;
    && (forall pool :: pool in cache ==> pool in x.cache)
    && (forall k :: 0 <= k < |pools| ==> pools[k].pool in x.cache)
    && (forall k :: 0 <= k < |pools| && pools[k].pool in cache ==> pools[k].meta.Resolved())
    && forall j, k :: 0 <= j < k < |pools| && pools[j].pool == pools[k].pool ==> pools[k].meta.Resolved()
  }

  lemma PoolsStep(cache: Cache, x: Extraction, row: PoolSeen, known: Cache)
    requires PoolsInOrder(cache, x) && (row.meta.Resolved() || row.pool !in x.cache)
    requires row.pool in known && forall pool :: pool in x.cache ==> pool in known
    ensures PoolsInOrder(cache, x.(cache := known, rows := WithPool(x.rows, row)))
  {
    var before, pools := x.rows.pools, x.rows.pools + [row];
    forall k | 0 <= k < |pools| ensures pools[k].pool in known {
      assert k < |before| ==> pools[k] == before[k];
    }
    forall j, k | 0 <= j < k < |pools| && pools[j].pool == pools[k].pool ensures pools[k].meta.Resolved() {
      assert pools[j] == before[j];
    }
  }

  lemma SwapKeepsPools(ranks: Ranks, x: Extraction, log: SwapLog, redis: Option<PoolMeta>, decimals0: Option<int>, decimals1: Option<int>)
    ensures var y := ExtractSwap(ranks, x, log, redis, decimals0, decimals1);
      y.rows.pools == x.rows.pools && forall pool :: pool in x.cache ==> pool in y.cache
  {
  }

  /** A placeholder row is only ever the first row of its pool, and never of one the
      cache knew before. So on its own the hot path never overwrites tokens. */
  lemma {:induction false} PlaceholdersComeFirst(ranks: Ranks, cache: Cache, steps: seq<Step>)
    requires forall i :: 0 <= i < |steps| && steps[i].PoolCreated? ==> steps[i].meta.Resolved()
    ensures PoolsInOrder(cache, Extracted(ranks, cache, steps))
  {
    if steps != [] {
      var x := Extracted(ranks, cache, steps[..|steps| - 1]);
      PlaceholdersComeFirst(ranks, cache, steps[..|steps| - 1]);
      match steps[|steps| - 1] {
        case SwapSeen(log, redis, decimals0, decimals1, _) =>
          SwapKeepsPools(ranks, x, log, redis, decimals0, decimals1);
          var y := ExtractSwap(ranks, x, log, redis, decimals0, decimals1);
          if log.pool !in y.cache {
            PoolsStep(cache, y, PoolSeen(log.pool, PLACEHOLDER), y.cache[log.pool := PLACEHOLDER]);
          }
        case PoolCreated(pool, meta) =>
          PoolsStep(cache, x, PoolSeen(pool, meta), x.cache[pool := meta]);
        case Meanwhile(_) =>
      }
    }
  }

  ghost predicate HasPool(rows: seq<PoolSeen>, pool: string) {
    exists k :: 0 <= k < |rows| && rows[k].pool == pool
  }

  /** A swap of the pool, of whatever length, or its creation. */
  predicate Touches(step: Step, pool: string) {
    (step.SwapSeen? && step.log.pool == pool) || (step.PoolCreated? && step.pool == pool)
  }

  ghost predicate Touched(steps: seq<Step>, pool: string) {
    exists i :: 0 <= i < |steps| && Touches(steps[i], pool)
  }

  /** The cache learns of the pool from its logs only. */
  predicate OnlyFromLogs(step: Step, pool: string) {
    match step
    case SwapSeen(log, redis, _, _, _) => log.pool == pool ==> redis.None? || !redis.value.Resolved()
    case PoolCreated(_, _) => true
    case Meanwhile(op) => op.pool != pool
  }

  lemma HasPoolSnoc(rows: seq<PoolSeen>, row: PoolSeen, pool: string)
    ensures HasPool(rows + [row], pool) <==> HasPool(rows, pool) || row.pool == pool
  {
    assert (rows + [row])[|rows|] == row;
    if k :| 0 <= k < |rows| && rows[k].pool == pool {
      assert (rows + [row])[k] == rows[k];
    }
  }

  lemma TouchStep(ranks: Ranks, x: Extraction, step: Step, pool: string)
    requires OnlyFromLogs(step, pool) && (pool in x.cache <==> HasPool(x.rows.pools, pool))
    ensures var y := ExtractStep(ranks, x, step);
      && (pool in y.cache <==> HasPool(y.rows.pools, pool))
      && (HasPool(y.rows.pools, pool) <==> HasPool(x.rows.pools, pool) || Touches(step, pool))
  {
    match step {
      case SwapSeen(log, redis, decimals0, decimals1, _) =>
        SwapKeepsPools(ranks, x, log, redis, decimals0, decimals1);
        HasPoolSnoc(x.rows.pools, PoolSeen(log.pool, PLACEHOLDER), pool);
      case PoolCreated(other, meta) => HasPoolSnoc(x.rows.pools, PoolSeen(other, meta), pool);
      case Meanwhile(_) =>
    }
  }

  /** A pool the cache does not know, and learns of from its logs only, gets a row exactly
      when one of them is scanned. */
  lemma {:induction false} NewPoolGetsRow(ranks: Ranks, cache: Cache, steps: seq<Step>, pool: string)
    requires pool !in cache && forall i :: 0 <= i < |steps| ==> OnlyFromLogs(steps[i], pool)
    ensures var x := Extracted(ranks, cache, steps);
      (pool in x.cache <==> HasPool(x.rows.pools, pool)) && (HasPool(x.rows.pools, pool) <==> Touched(steps, pool))
  {
    if steps != [] {
      var before, step := steps[..|steps| - 1], steps[|steps| - 1];
      NewPoolGetsRow(ranks, cache, before, pool);
      TouchStep(ranks, Extracted(ranks, cache, before), step, pool);
      assert Touched(steps, pool) <==> Touched(before, pool) || Touches(step, pool) by {
        if i :| 0 <= i < |before| && Touches(before[i], pool) {
          assert Touches(steps[i], pool);
        }
        assert forall i :: 0 <= i < |before| ==> before[i] == steps[i];
      }
    }
  }

  /** Every creation event has a row with its tokens. */
  lemma {:induction false} CreationsHaveRows(ranks: Ranks, cache: Cache, steps: seq<Step>, i: nat)
    requires i < |steps| && steps[i].PoolCreated?
    ensures PoolSeen(steps[i].pool, steps[i].meta) in Extracted(ranks, cache, steps).rows.pools
  {
    var before, step := steps[..|steps| - 1], steps[|steps| - 1];
    var x := Extracted(ranks, cache, before);
    if i < |before| {
      CreationsHaveRows(ranks, cache, before, i);
      if step.SwapSeen? {
        SwapKeepsPools(ranks, x, step.log, step.redis, step.decimals0, step.decimals1);
      }
    } else {
      assert WithPool(x.rows, PoolSeen(step.pool, step.meta)).pools[|x.rows.pools|] == PoolSeen(step.pool, step.meta);
    }
  }

  // ----- What reaches the queue -----

  /** The queue is sent the deferred swaps, each once, in order. */
  ghost predicate Queues(events: seq<Event>, deferred: seq<SwapLog>) {
    && |events| == |deferred|
    && forall i :: 0 <= i < |events| ==> events[i].Arrive? && ComesFrom(events[i].msg, deferred[i])
  }

  lemma QueuesAppend(events: seq<Event>, deferred: seq<SwapLog>, events': seq<Event>, deferred': seq<SwapLog>)
    requires Queues(events, deferred) && Queues(events', deferred')
    ensures Queues(events + events', deferred + deferred')
  {
  }

  lemma QueuesOne(log: SwapLog, now: int)
    requires LegsOf(log).Some?
    ensures Queues([Arrive(PendingMessage(log, LegsOf(log).value), now)], [log])
  {
  }

  // ----- The extractor -----

  /** What the on-chain resolver and the store answer the worker; there may be no
      store. */
  datatype Resolution = Resolution(meta: Option<PoolMeta>, decimals0: Option<int>, decimals1: Option<int>, stored: Option<Write>)

  /** What becomes of the worker's write. The two token rows of a pool whose tokens are
      one have one key, so the store refuses them. */
  function Taken(meta: PoolMeta, stored: Option<Write>): Option<Write> {
    if stored.Some? && meta.token0 == meta.token1 then Some(Lost) else stored
  }

  class UniswapExtractor {
    var seenPools: Cache
    const pendingQueue: Memory?
    const ranks: Ranks
    ghost var written: seq<SwapRecord>
    ghost var poolRows: seq<PoolSeen>

    ghost function QueueState(): System
      reads pendingQueue
    {
      if pendingQueue == null then EMPTY else pendingQueue.system
    }

    /** The queue, if there is one, is as these events leave it. */
    ghost predicate Queued(before: System, events: seq<Event>)
      reads pendingQueue
    {
      pendingQueue != null ==> pendingQueue.Valid() && pendingQueue.system == Run(pendingQueue.limits, before, events)
    }

    lemma QueuedAppend(first: System, before: System, events: seq<Event>, arrivals: seq<Event>)
      requires pendingQueue != null ==> before == Run(pendingQueue.limits, first, events)
      requires Queued(before, arrivals)
      ensures Queued(first, events + arrivals)
    {
      if pendingQueue != null {
        RunAppend(pendingQueue.limits, first, events, arrivals);
      }
    }

    constructor (pendingQueue: Memory?, ranks: Ranks)
      ensures this.pendingQueue == pendingQueue && this.ranks == ranks
      ensures seenPools == map[] && written == [] && poolRows == []
    {
      this.pendingQueue, this.ranks := pendingQueue, ranks;
      seenPools, written, poolRows := map[], [], [];
    }

    method WarmupPoolTokens(poolTokens: map<string, PoolMeta>) returns (warmed: nat)
      modifies this`seenPools
      ensures forall pool :: pool in seenPools <==> pool in old(seenPools) || (pool in poolTokens && poolTokens[pool].Resolved())
      ensures forall pool :: pool in seenPools ==>
        seenPools[pool] == if pool in old(seenPools) then old(seenPools)[pool] else poolTokens[pool]
      ensures warmed == |seenPools.Keys| - |old(seenPools).Keys|
    {
      warmed := 0;
      var rest := poolTokens.Keys;
      while rest != {}
        invariant rest <= poolTokens.Keys
        invariant forall pool :: pool in seenPools <==>
          pool in old(seenPools) || (pool in poolTokens && pool !in rest && poolTokens[pool].Resolved())
        invariant forall pool :: pool in seenPools ==>
          seenPools[pool] == if pool in old(seenPools) then old(seenPools)[pool] else poolTokens[pool]
        invariant warmed == |seenPools.Keys| - |old(seenPools).Keys|
        decreases rest
      {
        var pool :| pool in rest;
        rest := rest - {pool};
        if poolTokens[pool].Resolved() && pool !in seenPools {
          assert seenPools[pool := poolTokens[pool]].Keys == seenPools.Keys + {pool};
          seenPools := seenPools[pool := poolTokens[pool]];
          warmed := warmed + 1;
        }
      }
    }

    method ResolvePoolTokens(pool: string, redis: Option<PoolMeta>) returns (meta: Option<PoolMeta>)
      modifies this`seenPools
      ensures seenPools == CacheStep(old(seenPools), Lookup(pool, redis)).0
      ensures meta.Some? <==> Level(seenPools, pool) == 2
      ensures meta.Some? ==> meta.value == seenPools[pool]
    {
      if pool in seenPools && seenPools[pool].Resolved() {
        return Some(seenPools[pool]);
      }
      if redis.Some? && redis.value.Resolved() {
        seenPools := seenPools[pool := redis.value];
        return Some(redis.value);
      }
      meta := None;
    }

    /** Whether a placeholder row is to be stored for the pool. */
    method LazyPool(pool: string) returns (emitted: bool)
      modifies this`seenPools
      ensures (seenPools, emitted) == CacheStep(old(seenPools), Lazy(pool))
    {
      emitted := pool !in seenPools;
      if emitted {
        seenPools := seenPools[pool := PLACEHOLDER];
      }
    }

    /** A log too short gives nothing; one of a known pool its two records; any other
        is queued, when there is a queue. */
    method ParseSwap(log: SwapLog, redis: Option<PoolMeta>, decimals0: Option<int>, decimals1: Option<int>, elapsed: nat)
      returns (direction: Direction, records: seq<SwapRecord>)
      requires pendingQueue != null ==> pendingQueue.Valid()
      modifies this`seenPools, if pendingQueue == null then {} else {pendingQueue}
      ensures pendingQueue != null ==> pendingQueue.Valid()
      ensures LegsOf(log).None? ==> records == [] && seenPools == old(seenPools)
      ensures LegsOf(log).Some? ==> seenPools == CacheStep(old(seenPools), Lookup(log.pool, redis)).0
      ensures LegsOf(log).Some? ==> direction == DirectionOf(ranks, LegsOf(log).value, Known(seenPools, log.pool))
      ensures LegsOf(log).Some? && Level(seenPools, log.pool) == 2 ==>
        var meta := seenPools[log.pool];
        if Paid0(log) then Trades(ranks, meta.token0, meta.token1, direction) else Trades(ranks, meta.token1, meta.token0, direction)
      ensures LegsOf(log).Some? && Level(seenPools, log.pool) < 2 ==> direction == Swap
      ensures LegsOf(log).Some? && Level(seenPools, log.pool) == 2 ==>
        records == HotRecords(log, seenPools[log.pool], decimals0, decimals1)
      ensures LegsOf(log).Some? && Level(seenPools, log.pool) < 2 ==> records == []
      ensures pendingQueue != null ==>
        (pendingQueue.system ==
          if LegsOf(log).Some? && Level(seenPools, log.pool) < 2 then
            Next(pendingQueue.limits, old(pendingQueue.system),
                 Arrive(PendingMessage(log, LegsOf(log).value), old(pendingQueue.clock) + elapsed))
          else old(pendingQueue.system))
    {
      direction, records := Swap, [];
      var parsed := LegsOf(log);
      if parsed.None? {
        return;
      }
      var legs := parsed.value;
      var meta := ResolvePoolTokens(log.pool, redis);
      if meta.Some? {
        TradeDirection(ranks, log, meta.value);
        var tokenIn, tokenOut := meta.value.token1, meta.value.token0;
        if legs.side0.In? && legs.amount0 > 0 {
          tokenIn, tokenOut := meta.value.token0, meta.value.token1;
        }
        direction := DetermineSide(ranks(tokenIn), ranks(tokenOut));
        records := BuildSwapRecords(Protocol(log.version), log.pool, log.txHash, log.blockNumber, log.blockTime, log.logIndex,
                                    meta.value, legs.amount0, legs.side0, decimals0, legs.amount1, legs.side1, decimals1);
      } else if pendingQueue != null {
        var _ := pendingQueue.Enqueue(PendingMessage(log, legs), elapsed);
      }
    }

    /** The queue's handler: resolve the pool, then store it with the records of
        every message that waited for it. Without a store the messages are done
        with, and lost. */
    method ResolvePendingPool(pool: string, msgs: seq<Message>, r: Resolution) returns (ok: bool)
      requires r.meta.Some? ==> r.meta.value.Resolved()
      modifies this
      ensures msgs == [] || r.meta.None? ==>
        seenPools == old(seenPools) && written == old(written) && poolRows == old(poolRows) && ok == (msgs == [])
      ensures msgs != [] && r.meta.Some? ==>
        var stored := Taken(r.meta.value, r.stored);
        var applied := stored.Some? && stored.value.Applied();
        && seenPools == CacheStep(old(seenPools), WorkerResolved(pool, r.meta.value)).0
        && ok == (stored.None? || stored.value.Acked?)
        && poolRows == old(poolRows) + (if applied then [PoolSeen(pool, r.meta.value)] else [])
        && written == old(written) + (if applied then WorkerRecords(msgs, r.meta.value, r.decimals0, r.decimals1) else [])
    {
      if |msgs| == 0 {
        return true;
      }
      if r.meta.None? {
        return false;
      }
      seenPools := seenPools[pool := r.meta.value];
      if r.stored.None? {
        return true;
      }
      var records: seq<SwapRecord> := [];
      for i := 0 to |msgs|
        invariant records == WorkerRecords(msgs[..i], r.meta.value, r.decimals0, r.decimals1)
      {
        assert msgs[..i + 1][..i] == msgs[..i];
        records := records + MessageRecords(msgs[i], r.meta.value, r.decimals0, r.decimals1);
      }
      assert msgs[..|msgs|] == msgs;
      if r.meta.value.token0 == r.meta.value.token1 {
        return false;
      }
      if r.stored.value.Applied() {
        written := written + records;
        poolRows := poolRows + [PoolSeen(pool, r.meta.value)];
      }
      ok := r.stored.value.Acked?;
    }

    /** One swap log, parsed and its pool noted. `sent` is the swap if it went to
        the queue, and `events` what that did there. */
    method ScanSwap(log: SwapLog, redis: Option<PoolMeta>, decimals0: Option<int>, decimals1: Option<int>, elapsed: nat,
                    rows: Rows, ghost deferred: seq<SwapLog>)
      returns (rows': Rows, ghost sent: seq<SwapLog>, ghost events: seq<Event>)
      requires pendingQueue != null ==> pendingQueue.Valid()
      modifies this`seenPools, if pendingQueue == null then {} else {pendingQueue}
      ensures Extraction(seenPools, rows', deferred + sent)
        == ExtractStep(ranks, Extraction(old(seenPools), rows, deferred), SwapSeen(log, redis, decimals0, decimals1, elapsed))
      ensures Queued(old(QueueState()), events)
      ensures Queues(events, sent)
      ensures pendingQueue != null && sent != [] ==>
        LegsOf(log).Some? && events == [Arrive(PendingMessage(log, LegsOf(log).value), old(pendingQueue.clock) + elapsed)]
    {
      sent, events, rows' := [], [], rows;
      assert deferred + sent == deferred;
      ghost var now := if pendingQueue == null then 0 else pendingQueue.clock + elapsed;
      var direction, records := ParseSwap(log, redis, decimals0, decimals1, elapsed);
      if LegsOf(log).Some? {
        if Level(seenPools, log.pool) < 2 {
          QueuesOne(log, now);
          sent, events := [log], [Arrive(PendingMessage(log, LegsOf(log).value), now)];
          assert events[..0] == [];
        }
        rows' := rows.(swaps := rows.swaps + [SwapRow(log, |rows.swaps|, direction)], records := rows.records + records);
      }
      var emitted := LazyPool(log.pool);
      if emitted {
        rows' := WithPool(rows', PoolSeen(log.pool, PLACEHOLDER));
      }
    }

    /** Where the extractor stands after these steps. */
    ghost predicate Stands(start: Cache, before: System, done: seq<Step>, rows: Rows, deferred: seq<SwapLog>, events: seq<Event>)
      reads this`seenPools, pendingQueue
    {
      && Extraction(seenPools, rows, deferred) == Extracted(ranks, start, done)
      && Queued(before, events)
      && Queues(events, deferred)
    }

    method ScanStep(step: Step, rows: Rows, ghost start: Cache, ghost before: System, ghost done: seq<Step>,
                    ghost deferred: seq<SwapLog>, ghost events: seq<Event>)
      returns (rows': Rows, ghost deferred': seq<SwapLog>, ghost events': seq<Event>)
      requires Stands(start, before, done, rows, deferred, events)
      modifies this`seenPools, if pendingQueue == null then {} else {pendingQueue}
      ensures Stands(start, before, done + [step], rows', deferred', events')
    {
      ExtractedSnoc(ranks, start, done, step);
      match step {
        case SwapSeen(log, redis, decimals0, decimals1, elapsed) =>
          ghost var sent, arrivals, mid := [], [], QueueState();
          rows', sent, arrivals := ScanSwap(log, redis, decimals0, decimals1, elapsed, rows, deferred);
          QueuedAppend(before, mid, events, arrivals);
          QueuesAppend(events, deferred, arrivals, sent);
          deferred', events' := deferred + sent, events + arrivals;
        case PoolCreated(pool, meta) =>
          seenPools := seenPools[pool := meta];
          rows', deferred', events' := WithPool(rows, PoolSeen(pool, meta)), deferred, events;
        case Meanwhile(op) =>
          seenPools := CacheStep(seenPools, op).0;
          rows', deferred', events' := rows, deferred, events;
      }
    }

    /** The logs of one transaction: its rows, and the swaps sent to the queue. */
    method ExtractTransaction(steps: seq<Step>) returns (rows: Rows, ghost deferred: seq<SwapLog>, ghost events: seq<Event>)
      requires pendingQueue != null ==> pendingQueue.Valid()
      modifies this`seenPools, if pendingQueue == null then {} else {pendingQueue}
      ensures Stands(old(seenPools), old(QueueState()), steps, rows, deferred, events)
    {
      rows, deferred, events := NO_ROWS, [], [];
      ghost var done: seq<Step> := [];
      for i := 0 to |steps|
        invariant done == steps[..i]
        invariant Stands(old(seenPools), old(QueueState()), done, rows, deferred, events)
      {
        rows, deferred, events := ScanStep(steps[i], rows, old(seenPools), old(QueueState()), done, deferred, events);
        done := done + [steps[i]];
      }
      assert done == steps;
    }
  }
}
