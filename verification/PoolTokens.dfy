/** What the pool table knows of a pool's tokens: a placeholder of the hot path can erase
    what the worker stored, in the same process or after a restart. */
module PoolTokens {
  import opened Outcomes
  import opened PendingQueue
  import opened Protocols
  import opened UniswapSwaps
  import opened UniswapExtraction
  import opened UpsertTables
  import opened SwapSystem

  // ----- Moves -----

  /** Pool creation events carry both tokens. */
  predicate ValidStep(step: Step) {
    match step
    case PoolCreated(_, meta) => meta.Resolved()
    case Meanwhile(op) => ValidOp(op)
    case SwapSeen(_, _, _, _, _) => true
  }

  predicate ValidMoves(moves: seq<Move>) {
    forall i :: 0 <= i < |moves| && moves[i].Scan? ==> ValidStep(moves[i].step)
  }

  /** Redis has the pool's tokens, and the log is long enough for the extractor to ask. */
  predicate RedisAnswers(step: Step)
    requires step.SwapSeen?
  {
    LegsOf(step.log).Some? && step.redis.Some? && step.redis.value.Resolved()
  }

  /** A swap of the pool is scanned that neither the cache nor Redis knows. */
  predicate Blind(s: World, m: Move, pool: string) {
    m.Scan? && m.step.SwapSeen? && m.step.log.pool == pool && pool !in s.cache && !RedisAnswers(m.step)
  }

  /** No such swap is scanned. */
  ghost predicate Sighted(c: Limits, ranks: Ranks, s: World, moves: seq<Move>, pool: string) {
    forall i :: 0 <= i < |moves| ==> !Blind(RunMoves(c, ranks, s, moves[..i]), moves[i], pool)
  }

  lemma SightedBefore(c: Limits, ranks: Ranks, s: World, moves: seq<Move>, pool: string)
    requires moves != [] && Sighted(c, ranks, s, moves, pool)
    ensures Sighted(c, ranks, s, moves[..|moves| - 1], pool)
    ensures !Blind(RunMoves(c, ranks, s, moves[..|moves| - 1]), moves[|moves| - 1], pool)
  {
    var n := |moves| - 1;
    assert forall i :: 0 <= i < n ==> moves[..n][..i] == moves[..i] && moves[..n][i] == moves[i];
  }

  // ----- Placeholders about to be stored -----

  /** The engine holds a placeholder of the pool that it has not stored yet. */
  predicate PlaceholderPending(s: World, pool: string) {
    LastRow(s.rows.pools, pool).Some? && !LastRow(s.rows.pools, pool).value.Resolved()
  }

  /** And the store would not refuse the batch that holds it. */
  ghost predicate WouldErase(s: World, pool: string) {
    PlaceholderPending(s, pool) && Storable(BatchOf(s))
  }

  /** The table knows the tokens, and the engine's batch will not change that. */
  ghost predicate Learned(s: World, pool: string) {
    TokensKnown(s.pools, pool) && !WouldErase(s, pool)
  }

  lemma PrefixDistinct<K, V>(rows: seq<Row<K, V>>, more: seq<Row<K, V>>)
    requires ChunksDistinct(rows + more)
    ensures ChunksDistinct(rows)
  {
    var all := rows + more;
    RepeatsInOneChunk(rows);
    RepeatsInOneChunk(all);
    forall i, j | 0 <= i < j < |rows| && i / 500 == j / 500 ensures rows[i].key != rows[j].key {
      assert all[i] == rows[i] && all[j] == rows[j];
    }
  }

  /** A batch that is refused is refused whatever is added to it. */
  lemma RefusedStays(d: DexData, more: DexData)
    requires !Storable(d)
    ensures !Storable(d.Append(more))
  {
    if Storable(d.Append(more)) {
      PrefixDistinct(d.pools, more.pools);
      PrefixDistinct(d.tokens, more.tokens);
      PrefixDistinct(d.reserves, more.reserves);
    }
  }

  lemma RefusedRow(others: DexData, rows: seq<PoolSeen>, row: PoolSeen)
    requires !Storable(others.(pools := PoolRowsOf(rows)))
    ensures !Storable(others.(pools := PoolRowsOf(rows + [row])))
  {
    var more := NO_DATA.(pools := [PoolRowOf(row)]);
    RefusedStays(others.(pools := PoolRowsOf(rows)), more);
    assert PoolRowsOf(rows + [row]) == PoolRowsOf(rows) + [PoolRowOf(row)];
    var d := others.(pools := PoolRowsOf(rows));
    assert d.Append(more) == others.(pools := PoolRowsOf(rows + [row]));
  }

  /** What a scanned log adds to the pool rows. */
  lemma StepPools(ranks: Ranks, x: Extraction, step: Step)
    ensures var pools, pools' := x.rows.pools, ExtractStep(ranks, x, step).rows.pools;
      match step
      case SwapSeen(log, _, _, _, _) =>
        pools' == if log.pool in x.cache || RedisAnswers(step) then pools else pools + [PoolSeen(log.pool, PLACEHOLDER)]
      case PoolCreated(pool, meta) => pools' == pools + [PoolSeen(pool, meta)]
      case Meanwhile(_) => pools' == pools
  {
    if step.SwapSeen? {
      SwapKeepsPools(ranks, x, step.log, step.redis, step.decimals0, step.decimals1);
    }
  }

  /** A further row neither makes a refused batch storable nor, unless it is a
      placeholder of the pool, endangers its tokens. */
  lemma RowKeepsLearned(s: World, s': World, row: PoolSeen, pool: string)
    requires Learned(s, pool) && s'.pools == s.pools && s'.others == s.others
    requires s'.rows.pools == s.rows.pools + [row] && (row.pool == pool ==> row.meta.Resolved())
    ensures Learned(s', pool)
  {
    LastRowSnoc(s.rows.pools, row, pool);
    if PlaceholderPending(s', pool) {
      RefusedRow(s.others, s.rows.pools, row);
    }
  }

  lemma ScanKeepsLearned(c: Limits, ranks: Ranks, s: World, step: Step, pool: string)
    requires Learned(s, pool) && ValidStep(step) && !Blind(s, Scan(step), pool)
    ensures Learned(AfterScan(c, ranks, s, step), pool)
  {
    var s' := AfterScan(c, ranks, s, step);
    StepPools(ranks, Extraction(s.cache, s.rows, []), step);
    match step {
      case SwapSeen(log, _, _, _, _) =>
        if !(log.pool in s.cache || RedisAnswers(step)) {
          RowKeepsLearned(s, s', PoolSeen(log.pool, PLACEHOLDER), pool);
        }
      case PoolCreated(p, meta) => RowKeepsLearned(s, s', PoolSeen(p, meta), pool);
      case Meanwhile(_) =>
    }
  }

  lemma PersistLearns(s: World, stored: Option<Write>, decimals0: Option<int>, decimals1: Option<int>, pool: string)
    requires s.queue.consumer.Handling? && s.stage.Resolved? && s.stage.meta.Resolved()
    ensures var s' := AfterPersist(s, stored, decimals0, decimals1);
      && s'.cache == s.cache && s'.rows == s.rows && s'.others == s.others
      && (TokensKnown(s.pools, pool) ==> TokensKnown(s'.pools, pool))
      && (stored.Some? && stored.value.Applied() ==> TokensKnown(s'.pools, s.queue.consumer.pool))
  {
    var row := PoolRowOf(PoolSeen(s.queue.consumer.pool, s.stage.meta));
    assert [row][..0] == [];
    assert UpsertAll(s.pools, [row]) == Upsert(s.pools, row);
  }

  lemma GatherKeepsLearned(s: World, more: DexData, pool: string)
    requires Learned(s, pool)
    ensures Learned(s.(others := s.others.Append(more)), pool)
  {
    var s' := s.(others := s.others.Append(more));
    if PlaceholderPending(s', pool) {
      RefusedStays(BatchOf(s), more.(pools := []));
      assert BatchOf(s).Append(more.(pools := [])) == BatchOf(s') by {
        assert PoolRowsOf(s.rows.pools) + [] == PoolRowsOf(s.rows.pools);
      }
    }
  }

  lemma StoreKeepsLearned(s: World, w: Write, pool: string)
    requires Learned(s, pool)
    ensures Learned(AfterStore(s, w), pool)
  {
    StoredRows(s.pools, s.rows.pools, pool);
  }

  // ----- The pool in hand -----

  /** A pool that is being stored is in the cache. */
  ghost predicate ResolvedInCache(s: World) {
    s.stage.Resolved? ==> s.stage.meta.Resolved() && s.queue.consumer.Handling? && s.queue.consumer.pool in s.cache
  }

  lemma CacheGrows(c: Limits, ranks: Ranks, s: World, m: Move, pool: string)
    requires pool in s.cache && !m.Restart?
    ensures pool in Advance(c, ranks, s, m).cache
  {
    match m {
      case Scan(step) =>
        if step.SwapSeen? {
          SwapKeepsPools(ranks, Extraction(s.cache, s.rows, []), step.log, step.redis, step.decimals0, step.decimals1);
        }
      case _ =>
    }
  }

  lemma MoveKeepsResolved(c: Limits, ranks: Ranks, s: World, m: Move)
    requires ResolvedInCache(s)
    ensures ResolvedInCache(Advance(c, ranks, s, m))
  {
    if s.stage.Resolved? && !m.Restart? {
      CacheGrows(c, ranks, s, m, s.queue.consumer.pool);
    }
    match m {
      case Scan(step) =>
        if step.SwapSeen? && LegsOf(step.log).Some? {
          ConsumerStays(c, s, step.log, KnownAt(s.cache, step.log, step.redis).Some?, step.elapsed);
        }
      case List(order) => ConsumerBooks(c, s.queue, order);
      case Call => ConsumerBooks(c, s.queue, []);
      case _ =>
    }
  }

  lemma {:induction false} MovesKeepResolved(c: Limits, ranks: Ranks, moves: seq<Move>)
    ensures ResolvedInCache(RunMoves(c, ranks, START, moves))
  {
    if moves != [] {
      var n := |moves| - 1;
      MovesKeepResolved(c, ranks, moves[..n]);
      MoveKeepsResolved(c, ranks, RunMoves(c, ranks, START, moves[..n]), moves[n]);
    }
  }

  // ----- What stays known -----

  lemma LearnedStays(c: Limits, ranks: Ranks, s: World, m: Move, pool: string)
    requires Learned(s, pool) && ResolvedInCache(s) && (m.Scan? ==> ValidStep(m.step)) && !Blind(s, m, pool)
    ensures Learned(Advance(c, ranks, s, m), pool)
  {
    match m {
      case Scan(step) => ScanKeepsLearned(c, ranks, s, step, pool);
      case Gather(more) => GatherKeepsLearned(s, more, pool);
      case Persist(stored, decimals0, decimals1) =>
        if s.queue.consumer.Handling? && s.stage.Resolved? {
          PersistLearns(s, Taken(s.stage.meta, stored), decimals0, decimals1, pool);
        }
      case StoreBatch(w) => StoreKeepsLearned(s, w, pool);
      case _ =>
    }
  }

  /** Restarts included: what the table knows, and the engine's batch will not erase, it
      knows as long as no swap of the pool is scanned that neither cache nor Redis knows. */
  lemma {:induction false} LearnedForGood(c: Limits, ranks: Ranks, s: World, more: seq<Move>, pool: string)
    requires Learned(s, pool) && ResolvedInCache(s) && ValidMoves(more) && Sighted(c, ranks, s, more, pool)
    ensures Learned(RunMoves(c, ranks, s, more), pool) && ResolvedInCache(RunMoves(c, ranks, s, more))
  {
    if more != [] {
      var n := |more| - 1;
      SightedBefore(c, ranks, s, more, pool);
      LearnedForGood(c, ranks, s, more[..n], pool);
      LearnedStays(c, ranks, RunMoves(c, ranks, s, more[..n]), more[n], pool);
      MoveKeepsResolved(c, ranks, RunMoves(c, ranks, s, more[..n]), more[n]);
    }
  }

  lemma StoreErases(c: Limits, ranks: Ranks, s: World, pool: string)
    requires WouldErase(s, pool)
    ensures !TokensKnown(RunMoves(c, ranks, s, [StoreBatch(Acked)]).pools, pool)
    ensures ValidMoves([StoreBatch(Acked)]) && Sighted(c, ranks, s, [StoreBatch(Acked)], pool)
  {
    RunMovesSnoc(c, ranks, s, [], StoreBatch(Acked));
    assert [] + [StoreBatch(Acked)] == [StoreBatch(Acked)];
    StoredRows(s.pools, s.rows.pools, pool);
  }

  /** After the worker stored a resolved pool, the table knows its tokens in every
      continuation, restarts included, in which no swap of the pool is scanned that
      neither cache nor Redis knows: exactly when the engine does not hold a placeholder
      of that pool, at that moment, in a batch the store would take. */
  lemma VisitIsFinal(c: Limits, ranks: Ranks, moves: seq<Move>, w: Write, decimals0: Option<int>, decimals1: Option<int>)
    requires w.Applied()
    requires var s := RunMoves(c, ranks, START, moves);
      s.queue.consumer.Handling? && s.stage.Resolved? && s.stage.meta.token0 != s.stage.meta.token1
    ensures var s := RunMoves(c, ranks, START, moves);
      var pool, s' := s.queue.consumer.pool, Advance(c, ranks, s, Persist(Some(w), decimals0, decimals1));
      (forall more :: ValidMoves(more) && Sighted(c, ranks, s', more, pool) ==> TokensKnown(RunMoves(c, ranks, s', more).pools, pool))
      <==> !WouldErase(s, pool)
  {
    var s := RunMoves(c, ranks, START, moves);
    var pool, s' := s.queue.consumer.pool, Advance(c, ranks, s, Persist(Some(w), decimals0, decimals1));
    VisitLearns(c, ranks, moves, w, decimals0, decimals1);
    if WouldErase(s, pool) {
      StoreErases(c, ranks, s', pool);
    } else {
      forall more | ValidMoves(more) && Sighted(c, ranks, s', more, pool) ensures TokensKnown(RunMoves(c, ranks, s', more).pools, pool) {
        LearnedForGood(c, ranks, s', more, pool);
      }
    }
  }

  lemma VisitLearns(c: Limits, ranks: Ranks, moves: seq<Move>, w: Write, decimals0: Option<int>, decimals1: Option<int>)
    requires w.Applied()
    requires var s := RunMoves(c, ranks, START, moves);
      s.queue.consumer.Handling? && s.stage.Resolved? && s.stage.meta.token0 != s.stage.meta.token1
    ensures var s := RunMoves(c, ranks, START, moves);
      var pool, s' := s.queue.consumer.pool, Advance(c, ranks, s, Persist(Some(w), decimals0, decimals1));
      && TokensKnown(s'.pools, pool) && (WouldErase(s', pool) <==> WouldErase(s, pool))
      && ResolvedInCache(s') && pool in s'.cache
  {
    var s := RunMoves(c, ranks, START, moves);
    MovesKeepResolved(c, ranks, moves);
    PersistLearns(s, Some(w), decimals0, decimals1, s.queue.consumer.pool);
    MoveKeepsResolved(c, ranks, s, Persist(Some(w), decimals0, decimals1));
  }

  // ----- When the condition on the continuation holds -----

  /** Every restart loads the pool from the table. */
  predicate RestartsLoad(moves: seq<Move>, pool: string) {
    forall i :: 0 <= i < |moves| && moves[i].Restart? ==> pool in moves[i].loaded
  }

  predicate NoRestart(moves: seq<Move>) {
    forall i :: 0 <= i < |moves| ==> !moves[i].Restart?
  }

  /** Redis answers for every swap of the pool. */
  predicate RedisKnows(moves: seq<Move>, pool: string) {
    forall i :: 0 <= i < |moves| && moves[i].Scan? && moves[i].step.SwapSeen? && moves[i].step.log.pool == pool ==> RedisAnswers(moves[i].step)
  }

  /** What may follow when, if so said, restarts load the pool and Redis answers for it. */
  predicate Allowed(moves: seq<Move>, pool: string, loads: bool, redis: bool) {
    ValidMoves(moves) && (loads ==> RestartsLoad(moves, pool)) && (redis ==> RedisKnows(moves, pool))
  }

  lemma RedisSees(c: Limits, ranks: Ranks, s: World, moves: seq<Move>, pool: string)
    requires RedisKnows(moves, pool)
    ensures Sighted(c, ranks, s, moves, pool)
  {
  }

  lemma SightedSnoc(c: Limits, ranks: Ranks, s: World, moves: seq<Move>, m: Move, pool: string)
    requires Sighted(c, ranks, s, moves, pool) && !Blind(RunMoves(c, ranks, s, moves), m, pool)
    ensures Sighted(c, ranks, s, moves + [m], pool)
  {
    var all := moves + [m];
    forall i | 0 <= i < |all| ensures !Blind(RunMoves(c, ranks, s, all[..i]), all[i], pool) {
      if i < |moves| {
        assert all[..i] == moves[..i] && all[i] == moves[i];
      } else {
        assert all[..i] == moves;
      }
    }
  }

  /** A move that loads the pool, if it is a restart, leaves it in the cache. */
  lemma StaysCached(c: Limits, ranks: Ranks, s: World, m: Move, pool: string)
    requires TokensKnown(s.pools, pool) && pool in s.cache && (m.Restart? ==> pool in m.loaded)
    ensures pool in Advance(c, ranks, s, m).cache
  {
    if !m.Restart? {
      CacheGrows(c, ranks, s, m, pool);
    }
  }

  /** A pool in cache and table stays in both when every restart loads it. */
  lemma {:induction false} LoadedSees(c: Limits, ranks: Ranks, s: World, moves: seq<Move>, pool: string)
    requires Learned(s, pool) && ResolvedInCache(s) && pool in s.cache && ValidMoves(moves) && RestartsLoad(moves, pool)
    ensures Sighted(c, ranks, s, moves, pool) && pool in RunMoves(c, ranks, s, moves).cache
  {
    if moves != [] {
      var n := |moves| - 1;
      LoadedSees(c, ranks, s, moves[..n], pool);
      LearnedForGood(c, ranks, s, moves[..n], pool);
      StaysCached(c, ranks, RunMoves(c, ranks, s, moves[..n]), moves[n], pool);
      SightedSnoc(c, ranks, s, moves[..n], moves[n], pool);
      assert moves[..n] + [moves[n]] == moves;
    }
  }

  /** A swap of the pool that does not ask Redis, or is too short to. */
  function BlindSwap(pool: string): Step {
    SwapSeen(SwapLog(V2, pool, seq(128, _ => 0), 0, "", 0, 0), None, None, None, 0)
  }

  /** A placeholder of a fresh batch is taken by the store. */
  lemma BlindScanErases(c: Limits, ranks: Ranks, s: World, step: Step)
    requires step.SwapSeen? && step.log.pool !in s.cache && !RedisAnswers(step)
    requires s.rows.pools == [] && s.others == NO_DATA
    ensures WouldErase(AfterScan(c, ranks, s, step), step.log.pool)
  {
    var s' := AfterScan(c, ranks, s, step);
    StepPools(ranks, Extraction(s.cache, s.rows, []), step);
    LastRowSnoc([], PoolSeen(step.log.pool, PLACEHOLDER), step.log.pool);
    assert s'.rows.pools == [] + [PoolSeen(step.log.pool, PLACEHOLDER)];
    FewRowsDistinct(BatchOf(s').pools);
    FewRowsDistinct(BatchOf(s').tokens);
    FewRowsDistinct(BatchOf(s').reserves);
  }

  lemma RestartErases(c: Limits, ranks: Ranks, s: World, loaded: set<string>, step: Step)
    requires step.SwapSeen? && !RedisAnswers(step) && (step.log.pool !in loaded || !TokensKnown(s.pools, step.log.pool))
    ensures !TokensKnown(RunMoves(c, ranks, AfterRestart(s, loaded), [Scan(step), StoreBatch(Acked)]).pools, step.log.pool)
  {
    var s1 := AfterRestart(s, loaded);
    BlindScanErases(c, ranks, s1, step);
    var s2 := AfterScan(c, ranks, s1, step);
    StoreErases(c, ranks, s2, step.log.pool);
    RunMovesSnoc(c, ranks, s1, [], Scan(step));
    assert [] + [Scan(step)] == [Scan(step)] && [Scan(step)] + [StoreBatch(Acked)] == [Scan(step), StoreBatch(Acked)];
    RunMovesSnoc(c, ranks, s1, [Scan(step)], StoreBatch(Acked));
    RunMovesSnoc(c, ranks, s2, [], StoreBatch(Acked));
    assert [] + [StoreBatch(Acked)] == [StoreBatch(Acked)];
  }

  /** A pool the table knows stays known through a restart and the process after it
      exactly when the restart loads it or Redis answers for its swaps. */
  lemma RestartIsSafe(c: Limits, ranks: Ranks, s: World, loaded: set<string>, redis: bool, pool: string)
    requires TokensKnown(s.pools, pool)
    ensures var s' := Advance(c, ranks, s, Restart(loaded));
      (forall more :: ValidMoves(more) && NoRestart(more) && (redis ==> RedisKnows(more, pool))
        ==> TokensKnown(RunMoves(c, ranks, s', more).pools, pool))
      <==> pool in loaded || redis
  {
    var s' := Advance(c, ranks, s, Restart(loaded));
    if pool in loaded || redis {
      forall more | ValidMoves(more) && NoRestart(more) && (redis ==> RedisKnows(more, pool))
        ensures TokensKnown(RunMoves(c, ranks, s', more).pools, pool)
      {
        if redis {
          RedisSees(c, ranks, s', more, pool);
        } else {
          LoadedSees(c, ranks, s', more, pool);
        }
        LearnedForGood(c, ranks, s', more, pool);
      }
    } else {
      var more := [Scan(BlindSwap(pool)), StoreBatch(Acked)];
      RestartErases(c, ranks, s, loaded, BlindSwap(pool));
      assert ValidMoves(more);
    }
  }

  /** After the worker stored a resolved pool, the table knows its tokens for ever,
      through any number of restarts, exactly when the engine does not hold a placeholder
      of it in a batch the store would take, and either every restart loads the pool from
      the table or Redis answers for its swaps. */
  lemma FinalAcrossRestarts(c: Limits, ranks: Ranks, moves: seq<Move>, w: Write, decimals0: Option<int>, decimals1: Option<int>,
                            loads: bool, redis: bool)
    requires w.Applied()
    requires var s := RunMoves(c, ranks, START, moves);
      s.queue.consumer.Handling? && s.stage.Resolved? && s.stage.meta.token0 != s.stage.meta.token1
    ensures var s := RunMoves(c, ranks, START, moves);
      var pool, s' := s.queue.consumer.pool, Advance(c, ranks, s, Persist(Some(w), decimals0, decimals1));
      (forall more :: Allowed(more, pool, loads, redis) ==> TokensKnown(RunMoves(c, ranks, s', more).pools, pool))
      <==> !WouldErase(s, pool) && (loads || redis)
  {
    var s := RunMoves(c, ranks, START, moves);
    var pool, s' := s.queue.consumer.pool, Advance(c, ranks, s, Persist(Some(w), decimals0, decimals1));
    VisitLearns(c, ranks, moves, w, decimals0, decimals1);
    StaysKnownIff(c, ranks, s', pool, loads, redis);
  }

  lemma StaysKnownIff(c: Limits, ranks: Ranks, s: World, pool: string, loads: bool, redis: bool)
    requires TokensKnown(s.pools, pool) && ResolvedInCache(s) && pool in s.cache
    ensures (forall more :: Allowed(more, pool, loads, redis) ==> TokensKnown(RunMoves(c, ranks, s, more).pools, pool))
       <==> !WouldErase(s, pool) && (loads || redis)
  {
    if !WouldErase(s, pool) && (loads || redis) {
      forall more | Allowed(more, pool, loads, redis) ensures TokensKnown(RunMoves(c, ranks, s, more).pools, pool) {
        StaysKnown(c, ranks, s, pool, loads, redis, more);
      }
    } else {
      var more := Erasing(c, ranks, s, pool, loads, redis);
    }
  }

  lemma StaysKnown(c: Limits, ranks: Ranks, s: World, pool: string, loads: bool, redis: bool, more: seq<Move>)
    requires Learned(s, pool) && ResolvedInCache(s) && pool in s.cache
    requires Allowed(more, pool, loads, redis) && (loads || redis)
    ensures TokensKnown(RunMoves(c, ranks, s, more).pools, pool)
  {
    if redis {
      RedisSees(c, ranks, s, more, pool);
    } else {
      LoadedSees(c, ranks, s, more, pool);
    }
    LearnedForGood(c, ranks, s, more, pool);
  }

  lemma Erasing(c: Limits, ranks: Ranks, s: World, pool: string, loads: bool, redis: bool) returns (more: seq<Move>)
    requires WouldErase(s, pool) || (!loads && !redis)
    ensures Allowed(more, pool, loads, redis) && !TokensKnown(RunMoves(c, ranks, s, more).pools, pool)
  {
    if WouldErase(s, pool) {
      more := [StoreBatch(Acked)];
      StoreErases(c, ranks, s, pool);
    } else {
      more := Forgetting({}, BlindSwap(pool));
      ForgettingErases(c, ranks, s, {}, BlindSwap(pool));
    }
  }

  /** A restart, a swap and the engine's store. */
  function Forgetting(loaded: set<string>, step: Step): seq<Move> {
    [Restart(loaded), Scan(step), StoreBatch(Acked)]
  }

  lemma ForgettingErases(c: Limits, ranks: Ranks, s: World, loaded: set<string>, step: Step)
    requires step.SwapSeen? && !RedisAnswers(step) && step.log.pool !in loaded
    ensures !TokensKnown(RunMoves(c, ranks, s, Forgetting(loaded, step)).pools, step.log.pool)
    ensures ValidMoves(Forgetting(loaded, step))
  {
    RestartErases(c, ranks, s, loaded, step);
    AfterFirst(c, ranks, s, Restart(loaded), Scan(step), StoreBatch(Acked));
    assert Advance(c, ranks, s, Restart(loaded)) == AfterRestart(s, loaded);
  }

  lemma AfterFirst(c: Limits, ranks: Ranks, s: World, a: Move, b: Move, d: Move)
    ensures RunMoves(c, ranks, s, [a, b, d]) == RunMoves(c, ranks, Advance(c, ranks, s, a), [b, d])
  {
    var s1 := Advance(c, ranks, s, a);
    assert [a, b, d][..2] == [a, b] && [a, b][..1] == [a] && [a][..0] == [] && [b, d][..1] == [b] && [b][..0] == [];
    assert RunMoves(c, ranks, s, [a]) == s1;
    assert RunMoves(c, ranks, s, [a, b]) == Advance(c, ranks, s1, b) == RunMoves(c, ranks, s1, [b]);
  }

  // ----- A run that erases the tokens -----

  /** A swap of an unknown pool is scanned; before the engine stores its batch, the
      worker resolves the pool and stores it. */
  function Overtaken(log: SwapLog, meta: PoolMeta): seq<Move> {
    [Scan(SwapSeen(log, None, None, None, 0)), List([log.pool]), Call, Resolve(Some(meta)), Persist(Some(Acked), None, None), Return(0),
     StoreBatch(Acked)]
  }

  lemma OvertakenScan(c: Limits, ranks: Ranks, log: SwapLog)
    requires c.maxTotal > 0 && LegsOf(log).Some?
    ensures var s := Advance(c, ranks, START, Scan(SwapSeen(log, None, None, None, 0)));
      && s.cache == map[log.pool := PLACEHOLDER] && s.rows.pools == [PoolSeen(log.pool, PLACEHOLDER)] && s.others == NO_DATA
      && s.stage == NotCalled && s.pools == map[] && s.written == [] && s.queue.consumer == Idle
      && s.queue.q.groups.Keys == {log.pool} && |Group(s.queue.q, log.pool)| == 1 && s.queue.clock == 0
  {
  }

  /** The visit of a pool, up to the worker's store. */
  ghost function AfterVisit(c: Limits, ranks: Ranks, s: World, pool: string, meta: PoolMeta): World {
    var called := Advance(c, ranks, Advance(c, ranks, s, List([pool])), Call);
    Advance(c, ranks, Advance(c, ranks, called, Resolve(Some(meta))), Persist(Some(Acked), None, None))
  }

  lemma OvertakenVisit(c: Limits, ranks: Ranks, s: World, pool: string, meta: PoolMeta)
    requires meta.Resolved() && meta.token0 != meta.token1 && s.stage == NotCalled && s.queue.consumer == Idle
    requires s.queue.q.groups.Keys == {pool} && |Group(s.queue.q, pool)| == 1
    ensures var s' := AfterVisit(c, ranks, s, pool, meta);
      && s'.rows == s.rows && s'.others == s.others && s'.stage == Returned(true)
      && TokensKnown(s'.pools, pool) && |s'.written| == |s.written| + 2
  {
    var s1 := Advance(c, ranks, s, List([pool]));
    assert s1.queue.consumer == Scanning([pool]);
    var s2 := Advance(c, ranks, s1, Call);
    assert s2.queue.consumer == Handling([], pool, Group(s.queue.q, pool));
    var s3 := Advance(c, ranks, s2, Resolve(Some(meta)));
    PersistLearns(s3, Some(Acked), None, None, pool);
    OneMessage(Group(s.queue.q, pool), meta);
  }

  lemma OneMessage(msgs: seq<Message>, meta: PoolMeta)
    requires |msgs| == 1
    ensures |WorkerRecords(msgs, meta, None, None)| == 2
  {
    assert msgs[..0] == [];
    assert WorkerRecords(msgs, meta, None, None) == [] + MessageRecords(msgs[0], meta, None, None);
  }

  /** Both writes are acknowledged, the swap's records are stored, and the pool table
      has forgotten the tokens the worker had stored. */
  lemma PlaceholderErases(c: Limits, ranks: Ranks, log: SwapLog, meta: PoolMeta)
    requires c.maxTotal > 0 && LegsOf(log).Some? && meta.Resolved() && meta.token0 != meta.token1
    ensures var moves := Overtaken(log, meta);
      && TokensKnown(RunMoves(c, ranks, START, moves[..5]).pools, log.pool)
      && var s := RunMoves(c, ranks, START, moves);
         |s.written| == 2 && log.pool in s.pools && !TokensKnown(s.pools, log.pool)
  {
    var moves := Overtaken(log, meta);
    var s1 := Advance(c, ranks, START, moves[0]);
    OvertakenScan(c, ranks, log);
    OvertakenVisit(c, ranks, s1, log.pool, meta);
    SevenMoves(c, ranks, moves);
    OvertakenStore(c, ranks, RunMoves(c, ranks, START, moves[..5]), log.pool);
  }

  lemma OvertakenStore(c: Limits, ranks: Ranks, s: World, pool: string)
    requires s.rows.pools == [PoolSeen(pool, PLACEHOLDER)] && s.others == NO_DATA
    ensures var s' := Advance(c, ranks, Advance(c, ranks, s, Return(0)), StoreBatch(Acked));
      s'.written == s.written && pool in s'.pools && !TokensKnown(s'.pools, pool)
  {
    var d := BatchOf(s);
    FewRowsDistinct(d.pools);
    FewRowsDistinct(d.tokens);
    FewRowsDistinct(d.reserves);
    LastRowSnoc([], PoolSeen(pool, PLACEHOLDER), pool);
    assert [] + [PoolSeen(pool, PLACEHOLDER)] == s.rows.pools;
    StoredRows(s.pools, s.rows.pools, pool);
  }

  lemma SevenMoves(c: Limits, ranks: Ranks, moves: seq<Move>)
    requires |moves| == 7
    ensures var s1 := Advance(c, ranks, START, moves[0]);
      var s2 := Advance(c, ranks, s1, moves[1]);
      var s3 := Advance(c, ranks, s2, moves[2]);
      var s4 := Advance(c, ranks, s3, moves[3]);
      var s5 := Advance(c, ranks, s4, moves[4]);
      var s6 := Advance(c, ranks, s5, moves[5]);
      && RunMoves(c, ranks, START, moves[..5]) == s5
      && RunMoves(c, ranks, START, moves[..6]) == s6
      && RunMoves(c, ranks, START, moves) == Advance(c, ranks, s6, moves[6])
  {
    assert moves[..0] == [];
    forall n: nat | n < 7 ensures RunMoves(c, ranks, START, moves[..n + 1]) == Advance(c, ranks, RunMoves(c, ranks, START, moves[..n]), moves[n]) {
      RunMovesSnoc(c, ranks, START, moves[..n], moves[n]);
      assert moves[..n] + [moves[n]] == moves[..n + 1];
    }
    assert moves[..7] == moves;
  }

  // ----- A run that forgets them after a restart -----

  /** A swap of an unknown pool is scanned and its batch stored; the worker resolves the
      pool and stores it. */
  function Visited(log: SwapLog, meta: PoolMeta): seq<Move> {
    [Scan(SwapSeen(log, None, None, None, 0)), StoreBatch(Acked), List([log.pool]), Call, Resolve(Some(meta)), Persist(Some(Acked), None, None),
     Return(0)]
  }

  lemma VisitThenReturn(c: Limits, ranks: Ranks, s: World, pool: string, meta: PoolMeta)
    requires meta.Resolved() && meta.token0 != meta.token1 && s.stage == NotCalled && s.queue.consumer == Idle && s.rows.pools == []
    requires s.queue.q.groups.Keys == {pool} && |Group(s.queue.q, pool)| == 1
    ensures Learned(Advance(c, ranks, AfterVisit(c, ranks, s, pool, meta), Return(0)), pool)
  {
    OvertakenVisit(c, ranks, s, pool, meta);
    ReturnLearns(c, ranks, AfterVisit(c, ranks, s, pool, meta), pool);
  }

  lemma VisitedLearns(c: Limits, ranks: Ranks, log: SwapLog, meta: PoolMeta)
    requires c.maxTotal > 0 && LegsOf(log).Some? && meta.Resolved() && meta.token0 != meta.token1
    ensures Learned(RunMoves(c, ranks, START, Visited(log, meta)), log.pool)
  {
    OvertakenScan(c, ranks, log);
    var s := Advance(c, ranks, START, Scan(SwapSeen(log, None, None, None, 0)));
    VisitThenReturn(c, ranks, Advance(c, ranks, s, StoreBatch(Acked)), log.pool, meta);
    SevenMoves(c, ranks, Visited(log, meta));
  }

  lemma ThenForgets(c: Limits, ranks: Ranks, moves: seq<Move>, step: Step)
    requires step.SwapSeen? && !RedisAnswers(step)
    ensures !TokensKnown(RunMoves(c, ranks, START, moves + Forgetting({}, step)).pools, step.log.pool)
  {
    ForgettingErases(c, ranks, RunMoves(c, ranks, START, moves), {}, step);
    RunMovesAppend(c, ranks, START, moves, Forgetting({}, step));
  }

  /** Every write is acknowledged and the visit was final for its process. A new process
      for which the table's query fails scans the next swap of the pool, and the table
      has forgotten the tokens. */
  lemma RestartForgets(c: Limits, ranks: Ranks, log: SwapLog, meta: PoolMeta)
    requires c.maxTotal > 0 && LegsOf(log).Some? && meta.Resolved() && meta.token0 != meta.token1
    ensures Learned(RunMoves(c, ranks, START, Visited(log, meta)), log.pool)
    ensures !TokensKnown(RunMoves(c, ranks, START, Visited(log, meta) + Forgetting({}, SwapSeen(log, None, None, None, 0))).pools, log.pool)
  {
    VisitedLearns(c, ranks, log, meta);
    ThenForgets(c, ranks, Visited(log, meta), SwapSeen(log, None, None, None, 0));
  }

  lemma ReturnLearns(c: Limits, ranks: Ranks, s: World, pool: string)
    requires TokensKnown(s.pools, pool) && s.rows.pools == []
    ensures Learned(Advance(c, ranks, s, Return(0)), pool)
  {
  }

  // ----- A batch that is refused -----

  /** A swap of an unknown pool, and another pool's creation seen twice. */
  function Refused(pool: string, other: string, meta: PoolMeta): seq<PoolSeen> {
    [PoolSeen(pool, PLACEHOLDER), PoolSeen(other, meta), PoolSeen(other, meta)]
  }

  /** A placeholder in a batch that the store refuses erases nothing. */
  lemma RefusedSpares(s: World, pool: string, other: string, meta: PoolMeta)
    requires s.rows.pools == Refused(pool, other, meta) && pool != other
    ensures PlaceholderPending(s, pool) && !WouldErase(s, pool)
    ensures forall w :: AfterStore(s, w).pools == s.pools
  {
    var rows := PoolRowsOf(s.rows.pools);
    RepeatsInOneChunk(rows);
    assert rows[1].key == rows[2].key && 1 / 500 == 2 / 500;
    assert s.rows.pools[..2] == [PoolSeen(pool, PLACEHOLDER), PoolSeen(other, meta)] && s.rows.pools[..2][..1] == [PoolSeen(pool, PLACEHOLDER)];
    assert LastRow(s.rows.pools, pool) == LastRow(s.rows.pools[..2], pool) == LastRow(s.rows.pools[..2][..1], pool);
  }
}
