/** The running parser around one pending queue: the hot path scans logs, the consumer
    hands pools to the extractor's handler, and the engine stores its batches. Every
    method is a run of the system's atomic moves. */
module SwapPipeline {
  import opened Outcomes
  import opened PendingQueue
  import opened UniswapSwaps
  import opened UniswapExtraction
  import opened UpsertTables
  import opened SwapSystem

  /** What happens around one visit of the consumer: logs scanned before the snapshot,
      before the handler resolves the pool and before the commit, and the handler's
      answers. */
  datatype Turn = Turn(before: seq<Step>, during: seq<Step>, after: seq<Step>, resolution: Resolution, elapsed: nat)

  predicate ValidTurn(t: Turn) {
    t.resolution.meta.Some? ==> t.resolution.meta.value.Resolved()
  }

  class Parser {
    const extractor: UniswapExtractor
    const queue: Memory
    const store: PgStore
    const tokenMeta: string -> TokenCols
    var rows: Rows // extracted and not stored yet
    var others: DexData // and what goes to the other tables
    ghost const earlier: seq<SwapRecord> // stored by earlier processes
    ghost var world: World

    ghost predicate Valid()
      reads this, extractor, queue, store
    {
      && extractor.pendingQueue == queue && queue.Valid()
      && world.cache == extractor.seenPools && world.written == earlier + extractor.written
      && world.rows == rows && world.others == others && world.pools == store.tables.pools && world.queue == queue.system
    }

    ghost function Ran(before: World, moves: seq<Move>): World {
      RunMoves(queue.limits, extractor.ranks, before, moves)
    }

    constructor (extractor: UniswapExtractor, queue: Memory, store: PgStore, tokenMeta: string -> TokenCols)
      requires extractor.pendingQueue == queue && queue.Valid() && queue.system == EMPTY
      requires extractor.seenPools == map[] && extractor.written == [] && store.tables.pools == map[]
      ensures Valid() && this.extractor == extractor && this.queue == queue && this.store == store && this.tokenMeta == tokenMeta
      ensures world == START
    {
      this.extractor, this.queue, this.store, this.tokenMeta := extractor, queue, store, tokenMeta;
      rows, others, earlier, world := NO_ROWS, NO_DATA, [], START;
    }

    /** The parser of a new process, whose extractor has been warmed up from the table. */
    constructor Warm(extractor: UniswapExtractor, queue: Memory, store: PgStore, tokenMeta: string -> TokenCols,
                     ghost before: World, ghost loaded: set<string>)
      requires extractor.pendingQueue == queue && queue.Valid() && queue.system == EMPTY
      requires extractor.seenPools == Warmed(before.pools, loaded) && extractor.written == [] && store.tables.pools == before.pools
      ensures Valid() && this.extractor == extractor && this.queue == queue && this.store == store && this.tokenMeta == tokenMeta
      ensures world == AfterRestart(before, loaded)
    {
      this.extractor, this.queue, this.store, this.tokenMeta := extractor, queue, store, tokenMeta;
      rows, others, earlier, world := NO_ROWS, NO_DATA, before.written, AfterRestart(before, loaded);
    }

    method Scan(step: Step)
      requires Valid()
      modifies this, extractor`seenPools, queue
      ensures Valid() && world == Advance(queue.limits, extractor.ranks, old(world), Move.Scan(step))
    {
      match step {
        case SwapSeen(log, redis, decimals0, decimals1, elapsed) =>
          ghost var sent, events;
          rows, sent, events := extractor.ScanSwap(log, redis, decimals0, decimals1, elapsed, rows, []);
          QueueAfterSwap(queue.limits, extractor.ranks, old(world), log, redis, decimals0, decimals1, elapsed, sent, events);
        case PoolCreated(pool, meta) =>
          extractor.seenPools := extractor.seenPools[pool := meta];
          rows := WithPool(rows, PoolSeen(pool, meta));
        case Meanwhile(op) =>
          extractor.seenPools := CacheStep(extractor.seenPools, op).0;
      }
      world := AfterScan(queue.limits, extractor.ranks, world, step);
    }

    /** Rows of other tables. */
    method Gather(more: DexData)
      requires Valid()
      modifies this
      ensures Valid() && world == Advance(queue.limits, extractor.ranks, old(world), Move.Gather(more))
    {
      world := Advance(queue.limits, extractor.ranks, world, Move.Gather(more));
      others := others.Append(more);
    }

    /** The engine's store of its batch; what is not stored, because the write is lost or
        the store refuses the batch, is dropped with it. */
    method StoreBatch(w: Write)
      requires Valid()
      modifies this, store
      ensures Valid() && world == Advance(queue.limits, extractor.ranks, old(world), Move.StoreBatch(w))
    {
      world := Advance(queue.limits, extractor.ranks, world, Move.StoreBatch(w));
      var _ := store.StoreDexData(others.(pools := PoolRowsOf(rows.pools)), w);
      rows, others := NO_ROWS, NO_DATA;
    }

    method ScanAll(steps: seq<Step>) returns (ghost moves: seq<Move>)
      requires Valid()
      modifies this, extractor`seenPools, queue
      ensures Valid() && world == Ran(old(world), moves)
      ensures world.stage == old(world.stage) && world.queue.consumer == old(world.queue.consumer)
    {
      moves := [];
      for i := 0 to |steps|
        invariant Valid() && world == Ran(old(world), moves)
        invariant world.stage == old(world.stage) && world.queue.consumer == old(world.queue.consumer)
      {
        ghost var before := world;
        Scan(steps[i]);
        ScanLeavesConsumer(queue.limits, extractor.ranks, before, steps[i]);
        RunMovesSnoc(queue.limits, extractor.ranks, old(world), moves, Move.Scan(steps[i]));
        moves := moves + [Move.Scan(steps[i])];
      }
    }

    /** The worker's store of a resolved pool. */
    method StoreResolved(pool: string, meta: PoolMeta, w: Write)
      modifies store
      ensures store.tables.pools == if Taken(meta, Some(w)).value.Applied()
        then UpsertAll(old(store.tables.pools), [PoolRowOf(PoolSeen(pool, meta))]) else old(store.tables.pools)
    {
      WorkerBatchStorable(pool, meta, tokenMeta);
      var _ := store.StoreDexData(WorkerBatch(pool, meta, tokenMeta), w);
    }

    /** The queue's handler: the extractor resolves and stores. */
    method Handle(pool: string, msgs: seq<Message>, r: Resolution) returns (ok: bool, ghost moves: seq<Move>)
      requires Valid() && (r.meta.Some? ==> r.meta.value.Resolved())
      requires world.queue.consumer.Handling? && world.queue.consumer.pool == pool && world.queue.consumer.msgs == msgs
      requires msgs != [] && world.stage == NotCalled
      modifies this, extractor, store
      ensures Valid() && world == Ran(old(world), moves)
      ensures world.stage == Returned(ok) && world.queue == old(world.queue)
    {
      ok := extractor.ResolvePendingPool(pool, msgs, r);
      ghost var resolved := Advance(queue.limits, extractor.ranks, world, Resolve(r.meta));
      RunMovesSnoc(queue.limits, extractor.ranks, world, [], Resolve(r.meta));
      moves := [] + [Resolve(r.meta)];
      if r.meta.Some? {
        RunMovesSnoc(queue.limits, extractor.ranks, world, moves, Persist(r.stored, r.decimals0, r.decimals1));
        moves := moves + [Persist(r.stored, r.decimals0, r.decimals1)];
        world := AfterPersist(resolved, Taken(r.meta.value, r.stored), r.decimals0, r.decimals1);
        if r.stored.Some? {
          StoreResolved(pool, r.meta.value, r.stored.value);
        }
      } else {
        world := resolved;
      }
    }

    method Take(ghost rest: seq<string>, pool: string) returns (msgs: seq<Message>)
      requires Valid() && world.queue.consumer == Scanning([pool] + rest)
      modifies this`world, queue`system
      ensures Valid() && world == Advance(queue.limits, extractor.ranks, old(world), Call)
      ensures msgs != [] && world.queue.consumer == Handling(rest, pool, msgs) && world.stage == old(world.stage)
    {
      msgs := queue.TakeGroup(rest, pool);
      world := Advance(queue.limits, extractor.ranks, world, Call);
    }

    method Commit(pool: string, msgs: seq<Message>, ok: bool, elapsed: nat)
      requires Valid() && world.queue.consumer.Handling? && world.queue.consumer.pool == pool && world.queue.consumer.msgs == msgs
      requires world.stage == Returned(ok)
      modifies this`world, queue
      ensures Valid() && world == Advance(queue.limits, extractor.ranks, old(world), Return(elapsed))
      ensures world.queue.consumer == Scanning(old(world.queue.consumer.pools)) && world.stage == NotCalled
    {
      queue.Commit(pool, msgs, ok, elapsed);
      world := Advance(queue.limits, extractor.ranks, world, Return(elapsed));
    }

    /** The handler's call, with logs scanned while it resolves and before it commits. */
    method CallHandler(pool: string, msgs: seq<Message>, t: Turn) returns (ok: bool, ghost moves: seq<Move>)
      requires Valid() && ValidTurn(t) && msgs != [] && world.stage == NotCalled
      requires world.queue.consumer.Handling? && world.queue.consumer.pool == pool && world.queue.consumer.msgs == msgs
      modifies this, extractor, queue, store
      ensures Valid() && world == Ran(old(world), moves)
      ensures world.stage == Returned(ok) && world.queue.consumer == old(world.queue.consumer)
    {
      ghost var c, ranks := queue.limits, extractor.ranks;
      moves := ScanAll(t.during);
      ghost var more;
      ok, more := Handle(pool, msgs, t.resolution);
      RunMovesAppend(c, ranks, old(world), moves, more);
      moves := moves + more;
      more := ScanAll(t.after);
      RunMovesAppend(c, ranks, old(world), moves, more);
      moves := moves + more;
    }

    /** One pool's visit: snapshot, handler without the lock, commit. */
    method Visit(ghost rest: seq<string>, pool: string, t: Turn) returns (ghost moves: seq<Move>)
      requires Valid() && ValidTurn(t) && world.queue.consumer == Scanning([pool] + rest) && world.stage == NotCalled
      modifies this, extractor, queue, store
      ensures Valid() && world == Ran(old(world), moves)
      ensures world.queue.consumer == Scanning(rest) && world.stage == NotCalled
    {
      ghost var c, ranks := queue.limits, extractor.ranks;
      moves := ScanAll(t.before);
      var msgs := Take(rest, pool);
      RunMovesSnoc(c, ranks, old(world), moves, Call);
      moves := moves + [Call];
      var ok, more := CallHandler(pool, msgs, t);
      RunMovesAppend(c, ranks, old(world), moves, more);
      moves := moves + more;
      Commit(pool, msgs, ok, t.elapsed);
      RunMovesSnoc(c, ranks, old(world), moves, Return(t.elapsed));
      moves := moves + [Return(t.elapsed)];
    }

    /** The pools that have messages. */
    method Poll() returns (listed: seq<string>)
      requires Valid() && world.queue.consumer.Idle? && world.stage == NotCalled
      modifies this`world, queue`system
      ensures Valid() && world == Advance(queue.limits, extractor.ranks, old(world), List(listed))
      ensures world.queue.consumer == Scanning(listed) && world.stage == NotCalled
    {
      listed := queue.ListPools();
      world := Advance(queue.limits, extractor.ranks, world, List(listed));
    }

    ghost method Rest()
      requires Valid() && world.queue.consumer == Scanning([])
      modifies this`world, queue`system
      ensures Valid() && world == Advance(queue.limits, extractor.ranks, old(world), Call)
      ensures world.queue.consumer.Idle? && world.stage == old(world.stage)
    {
      world := Advance(queue.limits, extractor.ranks, world, Call);
      queue.Rest();
    }

    method VisitAll(listed: seq<string>, turns: nat -> Turn) returns (ghost moves: seq<Move>)
      requires Valid() && world.queue.consumer == Scanning(listed) && world.stage == NotCalled && forall i: nat :: ValidTurn(turns(i))
      modifies this, extractor, queue, store
      ensures Valid() && world == Ran(old(world), moves)
      ensures world.queue.consumer == Scanning([]) && world.stage == NotCalled
    {
      ghost var c, ranks, first := queue.limits, extractor.ranks, world;
      moves := [];
      for i := 0 to |listed|
        invariant Valid() && world == Ran(first, moves)
        invariant world.queue.consumer == Scanning(listed[i..]) && world.stage == NotCalled
      {
        assert listed[i..] == [listed[i]] + listed[i + 1..];
        ghost var more := Visit(listed[i + 1..], listed[i], turns(i));
        RunMovesAppend(c, ranks, first, moves, more);
        moves := moves + more;
      }
    }

    /** One round of the consumer over the pools that have messages. */
    method ProcessOnce(turns: nat -> Turn) returns (ghost moves: seq<Move>)
      requires Valid() && world.queue.consumer.Idle? && world.stage == NotCalled && forall i: nat :: ValidTurn(turns(i))
      modifies this, extractor, queue, store
      ensures Valid() && world == Ran(old(world), moves)
      ensures world.queue.consumer.Idle? && world.stage == NotCalled
    {
      ghost var c, ranks, first := queue.limits, extractor.ranks, world;
      var listed := Poll();
      RunMovesSnoc(c, ranks, first, [], List(listed));
      moves := [] + [List(listed)];
      ghost var more := VisitAll(listed, turns);
      RunMovesAppend(c, ranks, first, moves, more);
      moves := moves + more;
      Rest();
      RunMovesSnoc(c, ranks, first, moves, Call);
      moves := moves + [Call];
    }
  }

  /** A new process on the same store: an empty queue, and a cache warmed up with what the
      table's query answers. */
  method NewProcess(parser: Parser, loaded: set<string>) returns (next: Parser)
    requires parser.Valid()
    ensures next.Valid() && fresh(next) && fresh(next.extractor) && fresh(next.queue) && next.store == parser.store
    ensures next.queue.limits == parser.queue.limits && next.extractor.ranks == parser.extractor.ranks
    ensures next.world == Advance(parser.queue.limits, parser.extractor.ranks, parser.world, Restart(loaded))
  {
    var queue := new Memory(parser.queue.limits);
    var extractor := new UniswapExtractor(queue, parser.extractor.ranks);
    var poolTokens := Warmed(parser.store.tables.pools, loaded);
    var _ := extractor.WarmupPoolTokens(poolTokens);
    assert extractor.seenPools == poolTokens;
    next := new Parser.Warm(extractor, queue, parser.store, parser.tokenMeta, parser.world, loaded);
  }

  lemma ScanLeavesConsumer(c: Limits, ranks: Ranks, s: World, step: Step)
    ensures AfterScan(c, ranks, s, step).queue.consumer == s.queue.consumer
    ensures AfterScan(c, ranks, s, step).stage == s.stage
  {
    if step.SwapSeen? && LegsOf(step.log).Some? {
      ConsumerStays(c, s, step.log, KnownAt(s.cache, step.log, step.redis).Some?, step.elapsed);
    }
  }

  lemma QueueAfterSwap(c: Limits, ranks: Ranks, s: World, log: SwapLog, redis: Option<PoolMeta>, decimals0: Option<int>, decimals1: Option<int>,
                       elapsed: nat, sent: seq<SwapLog>, events: seq<Event>)
    requires ExtractStep(ranks, Extraction(s.cache, s.rows, []), SwapSeen(log, redis, decimals0, decimals1, elapsed)).deferred == sent
    requires |events| == |sent|
    requires sent != [] ==> LegsOf(log).Some? && events == [Arrive(PendingMessage(log, LegsOf(log).value), s.queue.clock + elapsed)]
    ensures AfterScan(c, ranks, s, SwapSeen(log, redis, decimals0, decimals1, elapsed)).queue == PendingQueue.Run(c, s.queue, events)
  {
    if sent != [] {
      assert events[..0] == [];
    }
  }
}
