/** Hot path, pending queue, worker, store and restarts as one system of atomic moves:
    where every swap's records end up, and what the pool table knows. */
module SwapSystem {
  import opened Outcomes
  import opened PendingQueue
  import opened UniswapSwaps
  import opened UniswapExtraction
  import opened UpsertTables

  // ----- The system -----

  /** How far the queue's handler has come with the batch in hand. */
  datatype Stage = NotCalled | Resolved(meta: PoolMeta) | Returned(ok: bool)

  /** What happened to the swaps of one pool: all that were scanned; the records the
      hot path returned; the swaps the queue refused; the records of successful and
      of failed visits; the messages a handler without a store was done with; and, of
      processes that ended, the messages handled and those lost. */
  datatype Account = Account(
    scanned: seq<SwapLog>, hot: seq<SwapRecord>, refused: seq<SwapLog>,
    kept: seq<SwapRecord>, again: seq<SwapRecord>, unstored: seq<Message>,
    done: seq<Message>, lost: seq<Message>)

  type PoolTable = Table<string, PoolCols>

  /** `rows` and `others` are the batch the engine has not stored yet: the extractor's
      rows, and what it holds for the other tables. */
  datatype World = World(
    cache: Cache, rows: Rows, others: DexData, queue: System, stage: Stage,
    pools: PoolTable, written: seq<SwapRecord>, accounts: map<string, Account>)

  const START := World(map[], NO_ROWS, NO_DATA, EMPTY, NotCalled, map[], [], map[])

  function AccountOf(s: World, pool: string): Account {
    if pool in s.accounts then s.accounts[pool] else Account([], [], [], [], [], [], [], [])
  }

  function PoolRowOf(row: PoolSeen): Row<string, PoolCols> {
    Row(row.pool, PoolCols("", "", row.meta.token0, row.meta.token1, 0, ""), None)
  }

  function PoolRowsOf(rows: seq<PoolSeen>): seq<Row<string, PoolCols>> {
    seq(|rows|, i requires 0 <= i < |rows| => PoolRowOf(rows[i]))
  }

  /** The batch as the engine's store gets it. */
  function BatchOf(s: World): DexData {
    s.others.(pools := PoolRowsOf(s.rows.pools))
  }

  /** What the worker stores for a resolved pool besides its records. */
  function WorkerBatch(pool: string, meta: PoolMeta, tokenMeta: string -> TokenCols): DexData {
    NO_DATA.(pools := [PoolRowOf(PoolSeen(pool, meta))],
             tokens := [Row(meta.token0, tokenMeta(meta.token0), None), Row(meta.token1, tokenMeta(meta.token1), None)])
  }

  lemma FewRowsDistinct<K, V>(rows: seq<Row<K, V>>)
    requires |rows| <= 1
    ensures ChunksDistinct(rows)
  {
    assert forall c: nat :: c * CHUNK < |rows| ==> |Chunk(rows, c * CHUNK)| <= 1;
  }

  lemma WorkerBatchStorable(pool: string, meta: PoolMeta, tokenMeta: string -> TokenCols)
    ensures Storable(WorkerBatch(pool, meta, tokenMeta)) <==> meta.token0 != meta.token1
  {
    var d := WorkerBatch(pool, meta, tokenMeta);
    FewRowsDistinct(d.pools);
    FewRowsDistinct(d.reserves);
    RepeatsInOneChunk(d.tokens);
    assert d.tokens[0].key == meta.token0 && d.tokens[1].key == meta.token1;
    assert 0 / 500 == 1 / 500;
  }

  /** The pool has these tokens, and each token its own name, symbol and decimals. */
  ghost predicate Describes(t: Tables, pool: string, meta: PoolMeta, tokenMeta: string -> TokenCols) {
    && TokensKnown(t.pools, pool) && TokensIn(t.pools, pool) == meta
    && meta.token0 in t.tokens && t.tokens[meta.token0].cols == tokenMeta(meta.token0)
    && meta.token1 in t.tokens && t.tokens[meta.token1].cols == tokenMeta(meta.token1)
  }

  /** Storing the worker's batch describes the pool and its tokens and touches no other. */
  lemma WorkerDescribes(t: Tables, pool: string, meta: PoolMeta, tokenMeta: string -> TokenCols)
    requires meta.Resolved() && meta.token0 != meta.token1
    ensures var t' := Stored(t, WorkerBatch(pool, meta, tokenMeta));
      && Describes(t', pool, meta, tokenMeta)
      && (forall other :: other != pool ==> At(t'.pools, other) == At(t.pools, other))
      && (forall id :: id != meta.token0 && id != meta.token1 ==> At(t'.tokens, id) == At(t.tokens, id))
      && t'.transactions == t.transactions && t'.liquidities == t.liquidities && t'.reserves == t.reserves
  {
    var d := WorkerBatch(pool, meta, tokenMeta);
    assert d.pools[..0] == [] && [d.tokens[0]][..0] == [] && [d.tokens[1]][..0] == [];
    assert UpsertAll(t.pools, d.pools) == Upsert(t.pools, d.pools[0]);
    UpsertAllAppend(t.tokens, [d.tokens[0]], [d.tokens[1]]);
    assert d.tokens == [d.tokens[0]] + [d.tokens[1]];
    assert UpsertAll(t.tokens, [d.tokens[0]]) == Upsert(t.tokens, d.tokens[0]);
  }

  /** The hot path scans a log, or another goroutine touches the cache; the extractor
      adds rows of other tables to the batch; the consumer lists the pools and calls the
      handler; the handler resolves the pool, stores it with its records, and returns;
      the engine stores its batch; a new process starts, for which the table's query
      answers for the pools `loaded`. */
  datatype Move =
    | Scan(step: Step)
    | Gather(more: DexData)
    | List(order: seq<string>)
    | Call
    | Resolve(meta: Option<PoolMeta>)
    | Persist(stored: Option<Write>, decimals0: Option<int>, decimals1: Option<int>)
    | Return(elapsed: nat)
    | StoreBatch(w: Write)
    | Restart(loaded: set<string>)

  /** The pool's tokens as the hot path finds them when it scans a swap. */
  function KnownAt(cache: Cache, log: SwapLog, redis: Option<PoolMeta>): Option<PoolMeta> {
    Known(CacheStep(cache, Lookup(log.pool, redis)).0, log.pool)
  }

  /** The queue after a parsed swap: a deferred one arrives. */
  function QueueAfter(c: Limits, q: System, log: SwapLog, known: bool, elapsed: nat): System
    requires LegsOf(log).Some?
  {
    if known then q else Next(c, q, Arrive(PendingMessage(log, LegsOf(log).value), q.clock + elapsed))
  }

  /** The account of its pool; `full`: the queue has no room. */
  function AccountAfter(a: Account, log: SwapLog, known: Option<PoolMeta>, decimals0: Option<int>, decimals1: Option<int>, full: bool): Account {
    var a' := a.(scanned := a.scanned + [log]);
    if known.Some? then a'.(hot := a.hot + HotRecords(log, known.value, decimals0, decimals1))
    else if full then a'.(refused := a.refused + [log])
    else a'
  }

  function AfterScan(c: Limits, ranks: Ranks, s: World, step: Step): World {
    var x := ExtractStep(ranks, Extraction(s.cache, s.rows, []), step);
    var s' := s.(cache := x.cache, rows := x.rows);
    if step.SwapSeen? && LegsOf(step.log).Some? then
      var known, full := KnownAt(s.cache, step.log, step.redis), s.queue.q.total >= c.maxTotal;
      var a := AccountAfter(AccountOf(s, step.log.pool), step.log, known, step.decimals0, step.decimals1, full);
      s'.(queue := QueueAfter(c, s.queue, step.log, known.Some?, step.elapsed), accounts := s.accounts[step.log.pool := a])
    else s'
  }

  /** The account of the pool in hand after its handler's store. */
  function Booked(a: Account, stored: Option<Write>, msgs: seq<Message>, records: seq<SwapRecord>): Account {
    if stored.None? then a.(unstored := a.unstored + msgs)
    else if stored.value.Lost? then a
    else if stored.value.Acked? then a.(kept := a.kept + records)
    else a.(again := a.again + records)
  }

  function AfterPersist(s: World, stored: Option<Write>, decimals0: Option<int>, decimals1: Option<int>): World
    requires s.queue.consumer.Handling? && s.stage.Resolved?
  {
    var pool, msgs := s.queue.consumer.pool, s.queue.consumer.msgs;
    var applied, records := stored.Some? && stored.value.Applied(), WorkerRecords(msgs, s.stage.meta, decimals0, decimals1);
    s.(stage := Returned(stored.None? || stored.value.Acked?),
       pools := if applied then UpsertAll(s.pools, [PoolRowOf(PoolSeen(pool, s.stage.meta))]) else s.pools,
       written := if applied then s.written + records else s.written,
       accounts := s.accounts[pool := Booked(AccountOf(s, pool), stored, msgs, records)])
  }

  /** A batch that makes a statement touch a row twice is refused, and its rows are gone
      with it. */
  ghost function AfterStore(s: World, w: Write): World {
    s.(rows := NO_ROWS, others := NO_DATA,
       pools := if Storable(BatchOf(s)) && w.Applied() then UpsertAll(s.pools, PoolRowsOf(s.rows.pools)) else s.pools)
  }

  function TokensIn(pools: PoolTable, pool: string): PoolMeta
    requires pool in pools
  {
    PoolMeta(pools[pool].cols.token0, pools[pool].cols.token1)
  }

  predicate TokensKnown(pools: PoolTable, pool: string) {
    pool in pools && TokensIn(pools, pool).Resolved()
  }

  /** The cache of a new process: the resolved pools the query answered for. */
  function Warmed(pools: PoolTable, loaded: set<string>): Cache {
    map pool | pool in loaded && TokensKnown(pools, pool) :: TokensIn(pools, pool)
  }

  /** The messages in hand whose handler has returned successfully, not committed yet. */
  function InFlight(s: World, pool: string): seq<Message> {
    if s.queue.consumer.Handling? && s.queue.consumer.pool == pool && s.stage == Returned(true) then s.queue.consumer.msgs else []
  }

  /** The queued messages behind those. */
  function Waiting(s: World, pool: string): seq<Message> {
    var g, n := Group(s.queue.q, pool), |InFlight(s, pool)|;
    if n <= |g| then g[n..] else []
  }

  /** The account of a pool after the end of the process. */
  function Closed(s: World, pool: string): Account {
    var a, b := AccountOf(s, pool), BookOf(s.queue, pool);
    a.(done := a.done + (WithFate(b.retired, Handled) + InFlight(s, pool)),
       lost := a.lost + (WithFate(b.retired, Dropped) + Waiting(s, pool)))
  }

  /** Of a process that ends, only the tables remain. */
  function AfterRestart(s: World, loaded: set<string>): World {
    World(Warmed(s.pools, loaded), NO_ROWS, NO_DATA, EMPTY, NotCalled, s.pools, s.written,
          map pool | pool in s.accounts.Keys + s.queue.books.Keys :: Closed(s, pool))
  }

  /** One move. A move that cannot happen now changes nothing. */
  ghost function Advance(c: Limits, ranks: Ranks, s: World, m: Move): World {
    match m
    case Scan(step) => AfterScan(c, ranks, s, step)
    case Gather(more) => s.(others := s.others.Append(more))
    case List(order) => s.(queue := Next(c, s.queue, Poll(order)))
    case Call => s.(queue := Next(c, s.queue, Take))
    case Resolve(meta) =>
      if !s.queue.consumer.Handling? || !s.stage.NotCalled? then s
      else if meta.None? || !meta.value.Resolved() then s.(stage := Returned(false))
      else s.(stage := Resolved(meta.value), cache := CacheStep(s.cache, WorkerResolved(s.queue.consumer.pool, meta.value)).0)
    case Persist(stored, decimals0, decimals1) =>
      if !s.queue.consumer.Handling? || !s.stage.Resolved? then s else AfterPersist(s, Taken(s.stage.meta, stored), decimals0, decimals1)
    case Return(elapsed) =>
      if !s.queue.consumer.Handling? || !s.stage.Returned? then s
      else s.(stage := NotCalled, queue := Next(c, s.queue, Finish(s.stage.ok, s.queue.clock + elapsed)))
    case StoreBatch(w) => AfterStore(s, w)
    case Restart(loaded) => AfterRestart(s, loaded)
  }

  ghost function RunMoves(c: Limits, ranks: Ranks, s: World, moves: seq<Move>): World {
    if moves == [] then s
    else Advance(c, ranks, RunMoves(c, ranks, s, moves[..|moves| - 1]), moves[|moves| - 1])
  }

  /** What these moves gathered for the other tables, in order. */
  ghost function GatheredIn(moves: seq<Move>): DexData {
    if moves == [] then NO_DATA
    else
      var before, m := GatheredIn(moves[..|moves| - 1]), moves[|moves| - 1];
      if m.Gather? then before.Append(m.more) else before
  }

  lemma OthersAfter(c: Limits, ranks: Ranks, s: World, m: Move)
    requires !m.StoreBatch? && !m.Restart?
    ensures Advance(c, ranks, s, m).others == if m.Gather? then s.others.Append(m.more) else s.others
  {
  }

  lemma AppendAssoc(a: DexData, b: DexData, more: DexData)
    ensures a.Append(b).Append(more) == a.Append(b.Append(more)) && a.Append(NO_DATA) == a
  {
    assert a.pools + b.pools + more.pools == a.pools + (b.pools + more.pools);
    assert a.tokens + b.tokens + more.tokens == a.tokens + (b.tokens + more.tokens);
    assert a.transactions + b.transactions + more.transactions == a.transactions + (b.transactions + more.transactions);
    assert a.liquidities + b.liquidities + more.liquidities == a.liquidities + (b.liquidities + more.liquidities);
    assert a.reserves + b.reserves + more.reserves == a.reserves + (b.reserves + more.reserves);
  }

  /** Until the engine stores its batch, everything gathered for the other tables is in
      it, in order. */
  lemma {:induction false} GatheredIsKept(c: Limits, ranks: Ranks, s: World, moves: seq<Move>)
    requires forall i :: 0 <= i < |moves| ==> !moves[i].StoreBatch? && !moves[i].Restart?
    ensures RunMoves(c, ranks, s, moves).others == s.others.Append(GatheredIn(moves))
  {
    AppendAssoc(s.others, NO_DATA, NO_DATA);
    if moves != [] {
      var before, m := moves[..|moves| - 1], moves[|moves| - 1];
      GatheredIsKept(c, ranks, s, before);
      OthersAfter(c, ranks, RunMoves(c, ranks, s, before), m);
      if m.Gather? {
        AppendAssoc(s.others, GatheredIn(before), m.more);
      }
    }
  }

  lemma RunMovesSnoc(c: Limits, ranks: Ranks, s: World, moves: seq<Move>, m: Move)
    ensures RunMoves(c, ranks, s, moves + [m]) == Advance(c, ranks, RunMoves(c, ranks, s, moves), m)
  {
    assert (moves + [m])[..|moves|] == moves;
  }

  lemma RunMovesAppend(c: Limits, ranks: Ranks, s: World, a: seq<Move>, b: seq<Move>)
    ensures RunMoves(c, ranks, s, a + b) == RunMoves(c, ranks, RunMoves(c, ranks, s, a), b)
  {
    if b == [] {
      assert a + b == a;
    } else {
      var less, m := b[..|b| - 1], b[|b| - 1];
      assert b == less + [m] && a + b == (a + less) + [m];
      RunMovesAppend(c, ranks, s, a, less);
      RunMovesSnoc(c, ranks, s, a + less, m);
      RunMovesSnoc(c, ranks, RunMoves(c, ranks, s, a), less, m);
    }
  }

  /** Whoever teaches the system a pool's tokens tells the truth. */
  ghost predicate TrueMove(m: Move, truth: string -> PoolMeta, pool: string) {
    match m
    case Scan(step) => TrueStep(step, truth)
    case Resolve(meta) => meta.Some? && meta.value.Resolved() ==> meta.value == truth(pool)
    case _ => true
  }

  /** Every move of the run does. */
  ghost predicate TrueMoves(c: Limits, ranks: Ranks, moves: seq<Move>, truth: string -> PoolMeta) {
    forall i :: 0 <= i < |moves| ==>
      var q := RunMoves(c, ranks, START, moves[..i]).queue;
      TrueMove(moves[i], truth, if q.consumer.Handling? then q.consumer.pool else "")
  }

  // ----- What messages are worth -----

  /** The records these messages of a pool will have, decimals left open. */
  ghost function Owed(msgs: seq<Message>, meta: PoolMeta): multiset<SwapRecord> {
    multiset(WorkerRecords(msgs, meta, None, None))
  }

  lemma {:induction false} WorkerRecordsAppend(a: seq<Message>, b: seq<Message>, meta: PoolMeta, decimals0: Option<int>, decimals1: Option<int>)
    ensures WorkerRecords(a + b, meta, decimals0, decimals1)
         == WorkerRecords(a, meta, decimals0, decimals1) + WorkerRecords(b, meta, decimals0, decimals1)
  {
    if b == [] {
      assert a + b == a;
    } else {
      WorkerRecordsAppend(a, b[..|b| - 1], meta, decimals0, decimals1);
      assert (a + b)[..|a + b| - 1] == a + b[..|b| - 1];
    }
  }

  lemma OwedAppend(a: seq<Message>, b: seq<Message>, meta: PoolMeta)
    ensures Owed(a + b, meta) == Owed(a, meta) + Owed(b, meta)
  {
    WorkerRecordsAppend(a, b, meta, None, None);
  }

  lemma {:induction false} StripWorker(msgs: seq<Message>, meta: PoolMeta, decimals0: Option<int>, decimals1: Option<int>)
    ensures Strip(WorkerRecords(msgs, meta, decimals0, decimals1)) == WorkerRecords(msgs, meta, None, None)
  {
    if msgs != [] {
      var n := |msgs| - 1;
      StripWorker(msgs[..n], meta, decimals0, decimals1);
      StripAppend(WorkerRecords(msgs[..n], meta, decimals0, decimals1), MessageRecords(msgs[n], meta, decimals0, decimals1));
    }
  }

  lemma OwedOne(log: SwapLog, m: Message, meta: PoolMeta)
    requires ComesFrom(m, log)
    ensures Owed([m], meta) == multiset(HotRecords(log, meta, None, None))
  {
    assert [m][..0] == [];
    assert WorkerRecords([m], meta, None, None) == MessageRecords(m, meta, None, None);
  }

  /** The messages that left the queue this way. */
  function WithFate(retired: seq<Retired>, fate: Fate): seq<Message> {
    if retired == [] then []
    else
      var before, r := WithFate(retired[..|retired| - 1], fate), retired[|retired| - 1];
      if r.fate == fate then before + [r.msg] else before
  }

  lemma {:induction false} WithFateAppend(a: seq<Retired>, b: seq<Retired>, fate: Fate)
    ensures WithFate(a + b, fate) == WithFate(a, fate) + WithFate(b, fate)
  {
    if b == [] {
      assert a + b == a;
    } else {
      WithFateAppend(a, b[..|b| - 1], fate);
      assert (a + b)[..|a + b| - 1] == a + b[..|b| - 1];
    }
  }

  lemma {:induction false} RetiredFates(msgs: seq<Message>, tries: seq<nat>, fate: Fate)
    requires |msgs| == |tries|
    ensures WithFate(Retire(msgs, tries, fate), fate) == msgs
    ensures WithFate(Retire(msgs, tries, fate), if fate.Handled? then Dropped else Handled) == []
  {
    if msgs != [] {
      var n := |msgs| - 1;
      RetiredFates(msgs[..n], tries[..n], fate);
      assert Retire(msgs, tries, fate)[..n] == Retire(msgs[..n], tries[..n], fate);
    }
  }

  lemma {:induction false} HandledOrDropped(retired: seq<Retired>, meta: PoolMeta)
    ensures Owed(Messages(retired), meta) == Owed(WithFate(retired, Handled), meta) + Owed(WithFate(retired, Dropped), meta)
  {
    if retired == [] {
      NoFates(meta);
    } else {
      var before, r := retired[..|retired| - 1], retired[|retired| - 1];
      assert retired == before + [r];
      HandledOrDropped(before, meta);
      FatesStep(before, r, meta);
    }
  }

  lemma NoFates(meta: PoolMeta)
    ensures Owed(Messages([]), meta) == Owed(WithFate([], Handled), meta) + Owed(WithFate([], Dropped), meta)
  {
    assert Messages([]) == [];
  }

  lemma FatesStep(before: seq<Retired>, r: Retired, meta: PoolMeta)
    requires Owed(Messages(before), meta) == Owed(WithFate(before, Handled), meta) + Owed(WithFate(before, Dropped), meta)
    ensures var after := before + [r];
      Owed(Messages(after), meta) == Owed(WithFate(after, Handled), meta) + Owed(WithFate(after, Dropped), meta)
  {
    MessagesSnoc(before, r, meta);
    OwedFate(before, r, Handled, meta);
    OwedFate(before, r, Dropped, meta);
    AddToEither(Owed(WithFate(before, Handled), meta), Owed(WithFate(before, Dropped), meta), Owed([r.msg], meta));
  }

  lemma AddToEither<T>(a: multiset<T>, b: multiset<T>, m: multiset<T>)
    ensures (a + b) + m == (a + m) + b == a + (b + m)
  {
  }

  lemma MessagesSnoc(before: seq<Retired>, r: Retired, meta: PoolMeta)
    ensures Owed(Messages(before + [r]), meta) == Owed(Messages(before), meta) + Owed([r.msg], meta)
  {
    MessagesOne(before, r);
    OwedAppend(Messages(before), [r.msg], meta);
  }

  lemma MessagesOne(before: seq<Retired>, r: Retired)
    ensures Messages(before + [r]) == Messages(before) + [r.msg]
  {
  }

  lemma OwedFate(before: seq<Retired>, r: Retired, fate: Fate, meta: PoolMeta)
    ensures Owed(WithFate(before + [r], fate), meta)
         == if r.fate == fate then Owed(WithFate(before, fate), meta) + Owed([r.msg], meta) else Owed(WithFate(before, fate), meta)
  {
    assert (before + [r])[..|before|] == before;
    OwedAppend(WithFate(before, fate), [r.msg], meta);
  }

  /** The records of one pool. */
  function ByPool(records: seq<SwapRecord>, pool: string): seq<SwapRecord> {
    if records == [] then []
    else
      var before, r := ByPool(records[..|records| - 1], pool), records[|records| - 1];
      if r.poolAddr == pool then before + [r] else before
  }

  lemma {:induction false} ByPoolAppend(a: seq<SwapRecord>, b: seq<SwapRecord>, pool: string)
    ensures ByPool(a + b, pool) == ByPool(a, pool) + ByPool(b, pool)
  {
    if b == [] {
      assert a + b == a;
    } else {
      ByPoolAppend(a, b[..|b| - 1], pool);
      assert (a + b)[..|a + b| - 1] == a + b[..|b| - 1];
    }
  }

  lemma {:induction false} WorkerPool(msgs: seq<Message>, meta: PoolMeta, decimals0: Option<int>, decimals1: Option<int>, pool: string, other: string)
    requires forall i :: 0 <= i < |msgs| ==> msgs[i].pool == pool
    ensures var records := WorkerRecords(msgs, meta, decimals0, decimals1);
      ByPool(records, other) == if other == pool then records else []
  {
    if msgs != [] {
      var n := |msgs| - 1;
      WorkerPool(msgs[..n], meta, decimals0, decimals1, pool, other);
      var before, two := WorkerRecords(msgs[..n], meta, decimals0, decimals1), MessageRecords(msgs[n], meta, decimals0, decimals1);
      ByPoolAppend(before, two, other);
      MessagePool(msgs[n], meta, decimals0, decimals1);
      ByPoolPair(two[0], two[1], other);
    }
  }

  lemma MessagePool(m: Message, meta: PoolMeta, decimals0: Option<int>, decimals1: Option<int>)
    ensures var two := MessageRecords(m, meta, decimals0, decimals1);
      two == [two[0], two[1]] && two[0].poolAddr == m.pool == two[1].poolAddr
  {
  }

  lemma ByPoolPair(r0: SwapRecord, r1: SwapRecord, pool: string)
    requires r0.poolAddr == r1.poolAddr
    ensures ByPool([r0, r1], pool) == if r0.poolAddr == pool then [r0, r1] else []
  {
    assert [r0, r1][..1] == [r0] && [r0][..0] == [];
    assert ByPool([r0], pool) == if r0.poolAddr == pool then [r0] else [];
  }

  // ----- The invariant -----

  /** What concerns one pool over all processes: its account, the messages accepted and
      those handled, the batch in flight and its written records. */
  datatype View = View(
    account: Account, accepted: seq<Message>, handled: seq<Message>, inFlight: seq<Message>, written: seq<SwapRecord>)

  function AcceptedOf(s: World, pool: string): seq<Message> {
    (AccountOf(s, pool).done + AccountOf(s, pool).lost) + BookOf(s.queue, pool).accepted
  }

  function HandledOf(s: World, pool: string): seq<Message> {
    AccountOf(s, pool).done + WithFate(BookOf(s.queue, pool).retired, Handled)
  }

  function ViewOf(s: World, pool: string): View {
    View(AccountOf(s, pool), AcceptedOf(s, pool), HandledOf(s, pool), InFlight(s, pool), ByPool(s.written, pool))
  }

  /** Every scanned swap got its records at once, was refused, or was accepted. */
  ghost predicate Scanned(a: Account, accepted: seq<Message>, truth: string -> PoolMeta, meta: PoolMeta) {
    multiset(Strip(a.hot)) + multiset(Ideal(a.refused, truth)) + Owed(accepted, meta) == multiset(Ideal(a.scanned, truth))
  }

  /** What was handled is stored, or there was no store. */
  ghost predicate Settled(a: Account, handled: seq<Message>, inFlight: seq<Message>, meta: PoolMeta) {
    Owed(handled, meta) + Owed(inFlight, meta) == multiset(Strip(a.kept)) + Owed(a.unstored, meta)
  }

  ghost predicate InStore(a: Account, written: seq<SwapRecord>) {
    multiset(written) == multiset(a.kept) + multiset(a.again)
  }

  ghost predicate Fair(v: View, truth: string -> PoolMeta, meta: PoolMeta) {
    && Scanned(v.account, v.accepted, truth, meta)
    && Settled(v.account, v.handled, v.inFlight, meta)
    && InStore(v.account, v.written)
  }

  ghost predicate PoolFair(s: World, truth: string -> PoolMeta, pool: string) {
    Fair(ViewOf(s, pool), truth, truth(pool))
  }

  ghost predicate Balanced(s: World, truth: string -> PoolMeta) {
    forall pool :: PoolFair(s, truth, pool)
  }

  ghost predicate StageInv(s: World, truth: string -> PoolMeta) {
    && (s.stage.Resolved? ==> s.queue.consumer.Handling? && s.stage.meta == truth(s.queue.consumer.pool) && s.stage.meta.Resolved())
    && (s.stage.Returned? ==> s.queue.consumer.Handling?)
  }

  ghost predicate TrueRow(row: PoolSeen, truth: string -> PoolMeta) {
    row.meta.Resolved() ==> row.meta == truth(row.pool)
  }

  ghost predicate TrueRows(rows: seq<PoolSeen>, truth: string -> PoolMeta) {
    forall i :: 0 <= i < |rows| ==> TrueRow(rows[i], truth)
  }

  /** Whatever tokens the table holds are true. */
  ghost predicate TrueTable(pools: PoolTable, truth: string -> PoolMeta) {
    forall pool :: TokensKnown(pools, pool) ==> TokensIn(pools, pool) == truth(pool)
  }

  ghost predicate WorldInv(c: Limits, s: World, truth: string -> PoolMeta) {
    && Inv(c, s.queue) && Agrees(s.cache, truth) && StageInv(s, truth) && Balanced(s, truth)
    && TrueRows(s.rows.pools, truth) && TrueTable(s.pools, truth)
  }

  /** A move that changes one pool's view at most. */
  lemma OtherViews(s: World, s': World, pool: string, truth: string -> PoolMeta)
    requires Balanced(s, truth) && PoolFair(s', truth, pool)
    requires forall other :: other != pool ==> ViewOf(s', other) == ViewOf(s, other)
    ensures Balanced(s', truth)
  {
    forall other ensures PoolFair(s', truth, other) {
      if other != pool {
        assert PoolFair(s, truth, other);
      }
    }
  }

  lemma SameViews(s: World, s': World, truth: string -> PoolMeta)
    requires Balanced(s, truth) && forall pool :: ViewOf(s', pool) == ViewOf(s, pool)
    ensures Balanced(s', truth)
  {
    forall pool ensures PoolFair(s', truth, pool) {
      assert PoolFair(s, truth, pool);
    }
  }

  /** A move that changes neither queue, stage, written records nor accounts. */
  lemma SameFields(s: World, s': World, truth: string -> PoolMeta)
    requires s'.queue == s.queue && s'.stage == s.stage && s'.written == s.written && s'.accounts == s.accounts
    requires Balanced(s, truth)
    ensures Balanced(s', truth)
  {
    forall pool ensures ViewOf(s', pool) == ViewOf(s, pool) {
    }
    SameViews(s, s', truth);
  }

  lemma StepAgrees(ranks: Ranks, x: Extraction, step: Step, truth: string -> PoolMeta)
    requires Agrees(x.cache, truth) && TrueStep(step, truth)
    ensures Agrees(ExtractStep(ranks, x, step).cache, truth)
  {
    match step {
      case SwapSeen(log, redis, decimals0, decimals1, _) =>
        TrueOpAgrees(x.cache, Lookup(log.pool, redis), truth);
        TrueOpAgrees(ExtractSwap(ranks, x, log, redis, decimals0, decimals1).cache, Lazy(log.pool), truth);
      case PoolCreated(pool, meta) => TrueOpAgrees(x.cache, Created(pool, meta), truth);
      case Meanwhile(op) => TrueOpAgrees(x.cache, op, truth);
    }
  }

  // ----- What the table is told -----

  /** What the last row of a pool says. */
  function LastRow(rows: seq<PoolSeen>, pool: string): Option<PoolMeta> {
    if rows == [] then None
    else if rows[|rows| - 1].pool == pool then Some(rows[|rows| - 1].meta)
    else LastRow(rows[..|rows| - 1], pool)
  }

  lemma LastRowSnoc(rows: seq<PoolSeen>, row: PoolSeen, pool: string)
    ensures LastRow(rows + [row], pool) == if row.pool == pool then Some(row.meta) else LastRow(rows, pool)
  {
    assert (rows + [row])[..|rows|] == rows;
  }

  lemma {:induction false} LastRowIsRow(rows: seq<PoolSeen>, pool: string)
    requires LastRow(rows, pool).Some?
    ensures exists i :: 0 <= i < |rows| && rows[i] == PoolSeen(pool, LastRow(rows, pool).value)
  {
    var n := |rows| - 1;
    if rows[n].pool == pool {
      assert rows[n] == PoolSeen(pool, LastRow(rows, pool).value);
    } else {
      LastRowIsRow(rows[..n], pool);
      var i :| 0 <= i < n && rows[..n][i] == PoolSeen(pool, LastRow(rows, pool).value);
      assert rows[i] == rows[..n][i];
    }
  }

  lemma {:induction false} StoredRows(t: PoolTable, rows: seq<PoolSeen>, pool: string)
    ensures LastRow(rows, pool).None? ==> At(UpsertAll(t, PoolRowsOf(rows)), pool) == At(t, pool)
    ensures LastRow(rows, pool).Some? ==>
      var u := UpsertAll(t, PoolRowsOf(rows)); pool in u && TokensIn(u, pool) == LastRow(rows, pool).value
  {
    if rows == [] {
      assert PoolRowsOf(rows) == [];
    } else {
      var n := |rows| - 1;
      StoredRows(t, rows[..n], pool);
      assert PoolRowsOf(rows)[..n] == PoolRowsOf(rows[..n]);
    }
  }

  lemma StoredTrue(t: PoolTable, rows: seq<PoolSeen>, truth: string -> PoolMeta)
    requires TrueTable(t, truth) && TrueRows(rows, truth)
    ensures TrueTable(UpsertAll(t, PoolRowsOf(rows)), truth)
  {
    var u := UpsertAll(t, PoolRowsOf(rows));
    forall pool | TokensKnown(u, pool) ensures TokensIn(u, pool) == truth(pool) {
      StoredRows(t, rows, pool);
      if LastRow(rows, pool).Some? {
        LastRowIsRow(rows, pool);
        var i :| 0 <= i < |rows| && rows[i] == PoolSeen(pool, LastRow(rows, pool).value);
        assert TrueRow(rows[i], truth);
      } else {
        assert At(u, pool) == At(t, pool);
        assert TokensKnown(t, pool);
      }
    }
  }

  lemma OneStoredTrue(t: PoolTable, pool: string, meta: PoolMeta, truth: string -> PoolMeta)
    requires TrueTable(t, truth) && meta == truth(pool)
    ensures TrueTable(UpsertAll(t, [PoolRowOf(PoolSeen(pool, meta))]), truth)
  {
    var rows := [PoolSeen(pool, meta)];
    assert PoolRowsOf(rows) == [PoolRowOf(PoolSeen(pool, meta))];
    StoredTrue(t, rows, truth);
  }

  lemma StepTrueRows(ranks: Ranks, x: Extraction, step: Step, truth: string -> PoolMeta)
    requires TrueRows(x.rows.pools, truth) && TrueStep(step, truth)
    ensures TrueRows(ExtractStep(ranks, x, step).rows.pools, truth)
  {
    if step.SwapSeen? {
      SwapKeepsPools(ranks, x, step.log, step.redis, step.decimals0, step.decimals1);
    }
  }

  // ----- Scanning -----

  lemma ScannedHot(a: Account, accepted: seq<Message>, truth: string -> PoolMeta, log: SwapLog, records: seq<SwapRecord>)
    requires Scanned(a, accepted, truth, truth(log.pool))
    requires Strip(records) == HotRecords(log, truth(log.pool), None, None)
    ensures Scanned(a.(scanned := a.scanned + [log], hot := a.hot + records), accepted, truth, truth(log.pool))
  {
    MoreIdeal(a.scanned, log, truth);
    MoreStripped(a.hot, records);
  }

  lemma ScannedRefused(a: Account, accepted: seq<Message>, truth: string -> PoolMeta, log: SwapLog)
    requires Scanned(a, accepted, truth, truth(log.pool))
    ensures Scanned(a.(scanned := a.scanned + [log], refused := a.refused + [log]), accepted, truth, truth(log.pool))
  {
    MoreIdeal(a.scanned, log, truth);
    MoreIdeal(a.refused, log, truth);
  }

  lemma ScannedAccepted(a: Account, accepted: seq<Message>, truth: string -> PoolMeta, log: SwapLog, m: Message)
    requires Scanned(a, accepted, truth, truth(log.pool)) && ComesFrom(m, log)
    ensures Scanned(a.(scanned := a.scanned + [log]), accepted + [m], truth, truth(log.pool))
  {
    MoreIdeal(a.scanned, log, truth);
    OwedOne(log, m, truth(log.pool));
    OwedAppend(accepted, [m], truth(log.pool));
  }

  lemma ArriveBooks(c: Limits, q: System, m: Message, elapsed: nat)
    ensures var q' := Next(c, q, Arrive(m, q.clock + elapsed));
      && q'.consumer == q.consumer
      && (forall pool :: pool != m.pool || q.q.total >= c.maxTotal ==> BookOf(q', pool) == BookOf(q, pool))
      && BookOf(q', m.pool).retired == BookOf(q, m.pool).retired
      && (q.q.total < c.maxTotal ==>
            BookOf(q', m.pool).accepted == BookOf(q, m.pool).accepted + [m.(enqueuedAt := q.clock + elapsed)])
  {
  }

  /** A parsed swap keeps its pool's books in balance: its records are there, or it
      was refused, or its message was accepted. */
  lemma NotedScanned(a: Account, accepted: seq<Message>, accepted': seq<Message>, log: SwapLog, known: Option<PoolMeta>,
                     decimals0: Option<int>, decimals1: Option<int>, full: bool, truth: string -> PoolMeta)
    requires Scanned(a, accepted, truth, truth(log.pool)) && (known.Some? ==> known.value == truth(log.pool))
    requires if known.Some? || full then accepted' == accepted
      else AcceptsOne(accepted, accepted', log)
    ensures Scanned(AccountAfter(a, log, known, decimals0, decimals1, full), accepted', truth, truth(log.pool))
  {
    if known.Some? {
      HotStripped(log, known.value, decimals0, decimals1);
      ScannedHot(a, accepted, truth, log, HotRecords(log, known.value, decimals0, decimals1));
    } else if full {
      ScannedRefused(a, accepted, truth, log);
    } else {
      ScannedAccepted(a, accepted, truth, log, accepted'[|accepted|]);
    }
  }

  lemma SameStores(a: Account, log: SwapLog, known: Option<PoolMeta>, decimals0: Option<int>, decimals1: Option<int>, full: bool)
    ensures var a' := AccountAfter(a, log, known, decimals0, decimals1, full);
      a'.kept == a.kept && a'.again == a.again && a'.unstored == a.unstored && a'.done == a.done && a'.lost == a.lost
  {
  }

  lemma QueueAfterBooks(c: Limits, q: System, log: SwapLog, known: bool, elapsed: nat)
    requires LegsOf(log).Some?
    ensures var q', full := QueueAfter(c, q, log, known, elapsed), q.q.total >= c.maxTotal;
      var accepted, accepted' := BookOf(q, log.pool).accepted, BookOf(q', log.pool).accepted;
      && q'.consumer == q.consumer
      && (forall other :: other != log.pool ==> BookOf(q', other) == BookOf(q, other))
      && BookOf(q', log.pool).retired == BookOf(q, log.pool).retired
      && if known || full then accepted' == accepted
         else AcceptsOne(accepted, accepted', log)
  {
    ArriveBooks(c, q, PendingMessage(log, LegsOf(log).value), elapsed);
  }

  lemma QueueAfterInv(c: Limits, q: System, log: SwapLog, known: bool, elapsed: nat)
    requires LegsOf(log).Some? && Inv(c, q)
    ensures Inv(c, QueueAfter(c, q, log, known, elapsed))
  {
    ArrivedInv(c, q, QueueAfter(c, q, log, known, elapsed), PendingMessage(log, LegsOf(log).value), q.clock + elapsed);
  }

  lemma ArrivedInv(c: Limits, q: System, q': System, m: Message, now: int)
    requires Inv(c, q) && (q' == q || q' == Next(c, q, Arrive(m, now)))
    ensures Inv(c, q')
  {
    ArriveInv(c, q, m, now);
  }

  lemma KnownAtIsTrue(cache: Cache, log: SwapLog, redis: Option<PoolMeta>, truth: string -> PoolMeta)
    requires Agrees(cache, truth) && TrueOp(Lookup(log.pool, redis), truth)
    ensures KnownAt(cache, log, redis).Some? ==> KnownAt(cache, log, redis).value == truth(log.pool)
  {
    TrueOpAgrees(cache, Lookup(log.pool, redis), truth);
  }

  lemma ConsumerStays(c: Limits, s: World, log: SwapLog, known: bool, elapsed: nat)
    requires LegsOf(log).Some?
    ensures QueueAfter(c, s.queue, log, known, elapsed).consumer == s.queue.consumer
  {
    QueueAfterBooks(c, s.queue, log, known, elapsed);
  }

  /** The views after a new account and new books of one pool. */
  lemma NotedViews(s: World, s': World, pool: string, a: Account)
    requires s'.stage == s.stage && s'.written == s.written && s'.accounts == s.accounts[pool := a]
    requires a.done == AccountOf(s, pool).done && a.lost == AccountOf(s, pool).lost
    requires s'.queue.consumer == s.queue.consumer && BookOf(s'.queue, pool).retired == BookOf(s.queue, pool).retired
    requires forall other :: other != pool ==> BookOf(s'.queue, other) == BookOf(s.queue, other)
    ensures forall other :: other != pool ==> ViewOf(s', other) == ViewOf(s, other)
    ensures ViewOf(s', pool) == ViewOf(s, pool).(account := a, accepted := AcceptedOf(s', pool))
  {
  }

  /** The accepted messages of all processes grow as those of this one. */
  ghost predicate AcceptsOne(accepted: seq<Message>, accepted': seq<Message>, log: SwapLog) {
    |accepted'| == |accepted| + 1 && accepted' == accepted + [accepted'[|accepted|]] && ComesFrom(accepted'[|accepted|], log)
  }

  lemma AcceptsOneBehind(past: seq<Message>, accepted: seq<Message>, accepted': seq<Message>, log: SwapLog)
    requires AcceptsOne(accepted, accepted', log)
    ensures AcceptsOne(past + accepted, past + accepted', log)
  {
    assert (past + accepted')[|past + accepted|] == accepted'[|accepted|];
    assert past + accepted' == (past + accepted) + [accepted'[|accepted|]];
  }

  lemma SwapBalanced(c: Limits, s: World, s': World, log: SwapLog, known: Option<PoolMeta>, decimals0: Option<int>, decimals1: Option<int>,
                     elapsed: nat, truth: string -> PoolMeta)
    requires LegsOf(log).Some? && Balanced(s, truth) && (known.Some? ==> known.value == truth(log.pool))
    requires var full := s.queue.q.total >= c.maxTotal;
      && s'.stage == s.stage && s'.written == s.written
      && s'.queue == QueueAfter(c, s.queue, log, known.Some?, elapsed)
      && s'.accounts == s.accounts[log.pool := AccountAfter(AccountOf(s, log.pool), log, known, decimals0, decimals1, full)]
    ensures Balanced(s', truth) && s'.queue.consumer == s.queue.consumer
  {
    var full, a := s.queue.q.total >= c.maxTotal, AccountOf(s, log.pool);
    QueueAfterBooks(c, s.queue, log, known.Some?, elapsed);
    SameStores(a, log, known, decimals0, decimals1, full);
    NotedViews(s, s', log.pool, AccountAfter(a, log, known, decimals0, decimals1, full));
    assert PoolFair(s, truth, log.pool);
    if known.None? && !full {
      AcceptsOneBehind(a.done + a.lost, BookOf(s.queue, log.pool).accepted, BookOf(s'.queue, log.pool).accepted, log);
    }
    NotedScanned(a, AcceptedOf(s, log.pool), AcceptedOf(s', log.pool), log, known, decimals0, decimals1, full, truth);
    OtherViews(s, s', log.pool, truth);
  }

  lemma ScanBalanced(c: Limits, ranks: Ranks, s: World, step: Step, truth: string -> PoolMeta)
    requires Balanced(s, truth) && Agrees(s.cache, truth) && TrueStep(step, truth)
    ensures Balanced(AfterScan(c, ranks, s, step), truth)
    ensures AfterScan(c, ranks, s, step).queue.consumer == s.queue.consumer
  {
    var s' := AfterScan(c, ranks, s, step);
    if step.SwapSeen? && LegsOf(step.log).Some? {
      KnownAtIsTrue(s.cache, step.log, step.redis, truth);
      SwapBalanced(c, s, s', step.log, KnownAt(s.cache, step.log, step.redis), step.decimals0, step.decimals1, step.elapsed, truth);
    } else {
      SameFields(s, s', truth);
    }
  }

  lemma ScanQueue(c: Limits, ranks: Ranks, s: World, step: Step)
    requires Inv(c, s.queue)
    ensures Inv(c, AfterScan(c, ranks, s, step).queue)
  {
    if step.SwapSeen? && LegsOf(step.log).Some? {
      QueueAfterInv(c, s.queue, step.log, KnownAt(s.cache, step.log, step.redis).Some?, step.elapsed);
    }
  }

  lemma ScanCache(c: Limits, ranks: Ranks, s: World, step: Step, truth: string -> PoolMeta)
    requires Agrees(s.cache, truth) && TrueStep(step, truth)
    ensures Agrees(AfterScan(c, ranks, s, step).cache, truth) && AfterScan(c, ranks, s, step).stage == s.stage
  {
    StepAgrees(ranks, Extraction(s.cache, s.rows, []), step, truth);
  }

  lemma ScanInv(c: Limits, ranks: Ranks, s: World, step: Step, truth: string -> PoolMeta)
    requires WorldInv(c, s, truth) && TrueStep(step, truth)
    ensures WorldInv(c, AfterScan(c, ranks, s, step), truth)
  {
    ScanBalanced(c, ranks, s, step, truth);
    ScanQueue(c, ranks, s, step);
    ScanCache(c, ranks, s, step, truth);
    StepTrueRows(ranks, Extraction(s.cache, s.rows, []), step, truth);
  }

  // ----- The consumer -----

  lemma ConsumerBooks(c: Limits, q: System, order: seq<string>)
    ensures forall pool ::
      BookOf(Next(c, q, Poll(order)), pool) == BookOf(q, pool)
    ensures forall pool ::
      && BookOf(Next(c, q, Take), pool).accepted == BookOf(q, pool).accepted
      && BookOf(Next(c, q, Take), pool).retired == BookOf(q, pool).retired
    ensures q.consumer.Handling? ==> Next(c, q, Poll(order)) == q && Next(c, q, Take) == q
  {
  }

  lemma ListInv(c: Limits, ranks: Ranks, s: World, order: seq<string>, truth: string -> PoolMeta)
    requires WorldInv(c, s, truth)
    ensures WorldInv(c, Advance(c, ranks, s, List(order)), truth)
  {
    var s' := Advance(c, ranks, s, List(order));
    PollInv(c, s.queue, order);
    ConsumerBooks(c, s.queue, order);
    assert forall pool :: ViewOf(s', pool) == ViewOf(s, pool);
    SameViews(s, s', truth);
  }

  lemma CallInv(c: Limits, ranks: Ranks, s: World, truth: string -> PoolMeta)
    requires WorldInv(c, s, truth)
    ensures WorldInv(c, Advance(c, ranks, s, Call), truth)
  {
    var s' := Advance(c, ranks, s, Call);
    TakeInv(c, s.queue);
    ConsumerBooks(c, s.queue, []);
    assert forall pool :: ViewOf(s', pool) == ViewOf(s, pool);
    SameViews(s, s', truth);
  }

  lemma ResolveInv(c: Limits, ranks: Ranks, s: World, meta: Option<PoolMeta>, truth: string -> PoolMeta)
    requires WorldInv(c, s, truth)
    requires s.queue.consumer.Handling? ==> TrueMove(Resolve(meta), truth, s.queue.consumer.pool)
    ensures WorldInv(c, Advance(c, ranks, s, Resolve(meta)), truth)
  {
    var s' := Advance(c, ranks, s, Resolve(meta));
    if s'.stage.Resolved? && s.stage.NotCalled? {
      TrueOpAgrees(s.cache, WorkerResolved(s.queue.consumer.pool, meta.value), truth);
    }
    ResolveViews(c, ranks, s, meta);
    SameViews(s, s', truth);
  }

  lemma ResolveViews(c: Limits, ranks: Ranks, s: World, meta: Option<PoolMeta>)
    ensures var s' := Advance(c, ranks, s, Resolve(meta));
      s'.queue == s.queue && forall pool :: ViewOf(s', pool) == ViewOf(s, pool)
  {
  }

  lemma GatherInv(c: Limits, ranks: Ranks, s: World, more: DexData, truth: string -> PoolMeta)
    requires WorldInv(c, s, truth)
    ensures WorldInv(c, Advance(c, ranks, s, Gather(more)), truth)
  {
    SameFields(s, Advance(c, ranks, s, Gather(more)), truth);
  }

  lemma StoreBatchInv(c: Limits, s: World, w: Write, truth: string -> PoolMeta)
    requires WorldInv(c, s, truth)
    ensures WorldInv(c, AfterStore(s, w), truth)
  {
    SameFields(s, AfterStore(s, w), truth);
    StoredTrue(s.pools, s.rows.pools, truth);
  }

  // ----- The handler's store -----

  lemma AddToBoth<T>(h: multiset<T>, k: multiset<T>, u: multiset<T>, m: multiset<T>)
    requires h + multiset{} == k + u
    ensures h + m == (k + m) + u == k + (u + m)
  {
    assert h + multiset{} == h;
  }

  lemma NothingOwed(meta: PoolMeta)
    ensures Owed([], meta) == multiset{}
  {
  }

  lemma SettledUnstored(a: Account, handled: seq<Message>, msgs: seq<Message>, meta: PoolMeta)
    requires Settled(a, handled, [], meta)
    ensures Settled(a.(unstored := a.unstored + msgs), handled, msgs, meta)
  {
    OwedAppend(a.unstored, msgs, meta);
    NothingOwed(meta);
    AddToBoth(Owed(handled, meta), multiset(Strip(a.kept)), Owed(a.unstored, meta), Owed(msgs, meta));
  }

  lemma SettledKept(a: Account, handled: seq<Message>, msgs: seq<Message>, meta: PoolMeta, records: seq<SwapRecord>)
    requires Settled(a, handled, [], meta) && multiset(Strip(records)) == Owed(msgs, meta)
    ensures Settled(a.(kept := a.kept + records), handled, msgs, meta)
  {
    MoreStripped(a.kept, records);
    NothingOwed(meta);
    AddToBoth(Owed(handled, meta), multiset(Strip(a.kept)), Owed(a.unstored, meta), Owed(msgs, meta));
  }

  lemma InStoreMore(a: Account, written: seq<SwapRecord>, records: seq<SwapRecord>)
    requires InStore(a, written)
    ensures InStore(a.(kept := a.kept + records), written + records)
    ensures InStore(a.(again := a.again + records), written + records)
  {
  }

  lemma HandsOwnPool(c: Limits, q: System)
    requires Inv(c, q) && q.consumer.Handling?
    ensures forall i :: 0 <= i < |q.consumer.msgs| ==> q.consumer.msgs[i].pool == q.consumer.pool
  {
    assert PoolInv(c, q, q.consumer.pool);
    var g := Group(q.q, q.consumer.pool);
    assert forall i :: 0 <= i < |q.consumer.msgs| ==> q.consumer.msgs[i] == g[i];
  }

  /** The view of the pool in hand after its handler's store. */
  function Persisted(v: View, stored: Option<Write>, msgs: seq<Message>, records: seq<SwapRecord>): View {
    v.(account := Booked(v.account, stored, msgs, records),
       inFlight := if stored.None? || stored.value.Acked? then msgs else v.inFlight,
       written := if stored.Some? && stored.value.Applied() then v.written + records else v.written)
  }

  lemma PersistWritten(written: seq<SwapRecord>, msgs: seq<Message>, meta: PoolMeta, decimals0: Option<int>, decimals1: Option<int>, pool: string, other: string)
    requires forall i :: 0 <= i < |msgs| ==> msgs[i].pool == pool
    ensures var records := WorkerRecords(msgs, meta, decimals0, decimals1);
      ByPool(written + records, other) == if other == pool then ByPool(written, other) + records else ByPool(written, other)
  {
    var records := WorkerRecords(msgs, meta, decimals0, decimals1);
    WorkerPool(msgs, meta, decimals0, decimals1, pool, other);
    ByPoolAppend(written, records, other);
    assert ByPool(written, other) + [] == ByPool(written, other);
  }

  ghost predicate HandlesOwn(s: World) {
    && s.queue.consumer.Handling? && s.stage.Resolved?
    && forall i :: 0 <= i < |s.queue.consumer.msgs| ==> s.queue.consumer.msgs[i].pool == s.queue.consumer.pool
  }

  /** The view of a pool under the same queue. */
  lemma SameQueueView(s: World, s': World, pool: string, a: Account)
    requires s'.queue == s.queue && AccountOf(s', pool) == a
    requires a.done == AccountOf(s, pool).done && a.lost == AccountOf(s, pool).lost
    ensures ViewOf(s', pool) == View(a, AcceptedOf(s, pool), HandledOf(s, pool), InFlight(s', pool), ByPool(s'.written, pool))
  {
  }

  lemma PersistFields(s: World, stored: Option<Write>, decimals0: Option<int>, decimals1: Option<int>)
    requires s.queue.consumer.Handling? && s.stage.Resolved?
    ensures var s', pool, msgs := AfterPersist(s, stored, decimals0, decimals1), s.queue.consumer.pool, s.queue.consumer.msgs;
      var records := WorkerRecords(msgs, s.stage.meta, decimals0, decimals1);
      && s'.queue == s.queue && AccountOf(s', pool) == Booked(AccountOf(s, pool), stored, msgs, records)
      && s'.written == (if stored.Some? && stored.value.Applied() then s.written + records else s.written)
      && InFlight(s', pool) == if stored.None? || stored.value.Acked? then msgs else []
  {
  }

  lemma OwnView(s: World, s': World, stored: Option<Write>, pool: string, msgs: seq<Message>, records: seq<SwapRecord>)
    requires s'.queue == s.queue && AccountOf(s', pool) == Booked(AccountOf(s, pool), stored, msgs, records)
    requires s'.written == (if stored.Some? && stored.value.Applied() then s.written + records else s.written)
    requires InFlight(s', pool) == if stored.None? || stored.value.Acked? then msgs else []
    requires InFlight(s, pool) == [] && ByPool(s.written + records, pool) == ByPool(s.written, pool) + records
    ensures ViewOf(s', pool) == Persisted(ViewOf(s, pool), stored, msgs, records)
  {
    SameQueueView(s, s', pool, AccountOf(s', pool));
  }

  lemma PersistOwnView(s: World, stored: Option<Write>, decimals0: Option<int>, decimals1: Option<int>)
    requires HandlesOwn(s)
    ensures var pool, msgs := s.queue.consumer.pool, s.queue.consumer.msgs;
      ViewOf(AfterPersist(s, stored, decimals0, decimals1), pool)
      == Persisted(ViewOf(s, pool), stored, msgs, WorkerRecords(msgs, s.stage.meta, decimals0, decimals1))
  {
    var pool, msgs := s.queue.consumer.pool, s.queue.consumer.msgs;
    PersistFields(s, stored, decimals0, decimals1);
    PersistWritten(s.written, msgs, s.stage.meta, decimals0, decimals1, pool, pool);
    OwnView(s, AfterPersist(s, stored, decimals0, decimals1), stored, pool, msgs, WorkerRecords(msgs, s.stage.meta, decimals0, decimals1));
  }

  lemma PersistOtherView(s: World, stored: Option<Write>, decimals0: Option<int>, decimals1: Option<int>, other: string)
    requires HandlesOwn(s) && other != s.queue.consumer.pool
    ensures ViewOf(AfterPersist(s, stored, decimals0, decimals1), other) == ViewOf(s, other)
  {
    PersistWritten(s.written, s.queue.consumer.msgs, s.stage.meta, decimals0, decimals1, s.queue.consumer.pool, other);
  }

  lemma BookedScans(a: Account, stored: Option<Write>, msgs: seq<Message>, records: seq<SwapRecord>)
    ensures var a' := Booked(a, stored, msgs, records); a'.hot == a.hot && a'.refused == a.refused && a'.scanned == a.scanned
  {
  }

  lemma SameScans(a: Account, a': Account, accepted: seq<Message>, truth: string -> PoolMeta, meta: PoolMeta)
    requires a'.hot == a.hot && a'.refused == a.refused && a'.scanned == a.scanned
    requires Scanned(a, accepted, truth, meta)
    ensures Scanned(a', accepted, truth, meta)
  {
  }

  lemma BookedSettled(a: Account, stored: Option<Write>, msgs: seq<Message>, records: seq<SwapRecord>, handled: seq<Message>, meta: PoolMeta)
    requires Settled(a, handled, [], meta) && multiset(Strip(records)) == Owed(msgs, meta)
    ensures Settled(Booked(a, stored, msgs, records), handled, if stored.None? || stored.value.Acked? then msgs else [], meta)
  {
    if stored.None? {
      SettledUnstored(a, handled, msgs, meta);
    } else if stored.value.Acked? {
      SettledKept(a, handled, msgs, meta, records);
    }
  }

  lemma BookedInStore(a: Account, stored: Option<Write>, msgs: seq<Message>, records: seq<SwapRecord>, written: seq<SwapRecord>)
    requires InStore(a, written)
    ensures InStore(Booked(a, stored, msgs, records), if stored.Some? && stored.value.Applied() then written + records else written)
  {
    InStoreMore(a, written, records);
  }

  lemma PersistFair(v: View, stored: Option<Write>, msgs: seq<Message>, records: seq<SwapRecord>, truth: string -> PoolMeta, meta: PoolMeta)
    requires Fair(v, truth, meta) && v.inFlight == [] && multiset(Strip(records)) == Owed(msgs, meta)
    ensures Fair(Persisted(v, stored, msgs, records), truth, meta)
  {
    BookedScans(v.account, stored, msgs, records);
    SameScans(v.account, Booked(v.account, stored, msgs, records), v.accepted, truth, meta);
    BookedSettled(v.account, stored, msgs, records, v.handled, meta);
    BookedInStore(v.account, stored, msgs, records, v.written);
  }

  lemma PersistBalanced(s: World, stored: Option<Write>, decimals0: Option<int>, decimals1: Option<int>, truth: string -> PoolMeta)
    requires Balanced(s, truth) && StageInv(s, truth) && HandlesOwn(s)
    ensures Balanced(AfterPersist(s, stored, decimals0, decimals1), truth)
  {
    var s', pool, msgs := AfterPersist(s, stored, decimals0, decimals1), s.queue.consumer.pool, s.queue.consumer.msgs;
    PersistOwnView(s, stored, decimals0, decimals1);
    StripWorker(msgs, s.stage.meta, decimals0, decimals1);
    assert PoolFair(s, truth, pool);
    PersistFair(ViewOf(s, pool), stored, msgs, WorkerRecords(msgs, s.stage.meta, decimals0, decimals1), truth, truth(pool));
    forall other | other != pool ensures ViewOf(s', other) == ViewOf(s, other) {
      PersistOtherView(s, stored, decimals0, decimals1, other);
    }
    OtherViews(s, s', pool, truth);
  }

  lemma PersistInv(c: Limits, s: World, stored: Option<Write>, decimals0: Option<int>, decimals1: Option<int>, truth: string -> PoolMeta)
    requires WorldInv(c, s, truth) && s.queue.consumer.Handling? && s.stage.Resolved?
    ensures WorldInv(c, AfterPersist(s, stored, decimals0, decimals1), truth)
  {
    HandsOwnPool(c, s.queue);
    PersistBalanced(s, stored, decimals0, decimals1, truth);
    OneStoredTrue(s.pools, s.queue.consumer.pool, s.stage.meta, truth);
  }

  // ----- The commit -----

  lemma FinishBooks(c: Limits, q: System, ok: bool, elapsed: nat)
    requires Inv(c, q) && q.consumer.Handling?
    ensures var q', pool := Next(c, q, Finish(ok, q.clock + elapsed)), q.consumer.pool;
      && !q'.consumer.Handling?
      && (forall other :: other != pool ==> BookOf(q', other) == BookOf(q, other))
      && BookOf(q', pool).accepted == BookOf(q, pool).accepted
      && WithFate(BookOf(q', pool).retired, Handled)
         == if ok then WithFate(BookOf(q, pool).retired, Handled) + q.consumer.msgs else WithFate(BookOf(q, pool).retired, Handled)
  {
    var pool, msgs := q.consumer.pool, q.consumer.msgs;
    assert PoolInv(c, q, pool);
    var g, b := Group(q.q, pool), BookOf(q, pool);
    assert msgs == g[..|msgs|];
    WithFateAppend(b.retired, Retire(msgs, b.tries[..|msgs|], Handled), Handled);
    RetiredFates(msgs, b.tries[..|msgs|], Handled);
    WithFateAppend(b.retired, Retire(g, b.tries, Dropped), Handled);
    RetiredFates(g, b.tries, Dropped);
  }

  lemma CommittedFair(v: View, truth: string -> PoolMeta, meta: PoolMeta)
    requires Fair(v, truth, meta)
    ensures Fair(v.(handled := v.handled + v.inFlight, inFlight := []), truth, meta)
  {
    OwedAppend(v.handled, v.inFlight, meta);
    NothingOwed(meta);
    assert Owed(v.handled + v.inFlight, meta) + multiset{} == Owed(v.handled + v.inFlight, meta);
  }

  /** The views after a commit of the batch of one pool. */
  lemma CommittedViews(s: World, s': World, pool: string)
    requires s.queue.consumer.Handling? && s.queue.consumer.pool == pool && s.stage.Returned?
    requires s'.stage == NotCalled && s'.written == s.written && s'.accounts == s.accounts && !s'.queue.consumer.Handling?
    requires forall other :: other != pool ==> BookOf(s'.queue, other) == BookOf(s.queue, other)
    requires BookOf(s'.queue, pool).accepted == BookOf(s.queue, pool).accepted
    ensures forall other :: other != pool ==> ViewOf(s', other) == ViewOf(s, other)
    ensures ViewOf(s', pool) == ViewOf(s, pool).(handled := HandledOf(s', pool), inFlight := [])
    ensures InFlight(s, pool) == if s.stage.ok then s.queue.consumer.msgs else []
  {
  }

  lemma ReturnViews(c: Limits, ranks: Ranks, s: World, elapsed: nat)
    requires Inv(c, s.queue) && s.queue.consumer.Handling? && s.stage.Returned?
    ensures var s', pool := Advance(c, ranks, s, Return(elapsed)), s.queue.consumer.pool;
      var v := ViewOf(s, pool);
      && ViewOf(s', pool) == v.(handled := v.handled + v.inFlight, inFlight := [])
      && forall other :: other != pool ==> ViewOf(s', other) == ViewOf(s, other)
  {
    var s', pool := Advance(c, ranks, s, Return(elapsed)), s.queue.consumer.pool;
    FinishBooks(c, s.queue, s.stage.ok, elapsed);
    CommittedViews(s, s', pool);
    var handled := WithFate(BookOf(s.queue, pool).retired, Handled);
    assert handled + [] == handled;
    HandledMore(s, s', pool, InFlight(s, pool));
  }

  lemma HandledMore(s: World, s': World, pool: string, more: seq<Message>)
    requires AccountOf(s', pool) == AccountOf(s, pool)
    requires WithFate(BookOf(s'.queue, pool).retired, Handled) == WithFate(BookOf(s.queue, pool).retired, Handled) + more
    ensures HandledOf(s', pool) == HandledOf(s, pool) + more
  {
    var handled, done := WithFate(BookOf(s.queue, pool).retired, Handled), AccountOf(s, pool).done;
    assert done + (handled + more) == (done + handled) + more;
  }

  lemma ReturnBalanced(c: Limits, ranks: Ranks, s: World, elapsed: nat, truth: string -> PoolMeta)
    requires Balanced(s, truth) && Inv(c, s.queue) && s.queue.consumer.Handling? && s.stage.Returned?
    ensures Balanced(Advance(c, ranks, s, Return(elapsed)), truth)
  {
    var s', pool := Advance(c, ranks, s, Return(elapsed)), s.queue.consumer.pool;
    ReturnViews(c, ranks, s, elapsed);
    assert PoolFair(s, truth, pool);
    CommittedFair(ViewOf(s, pool), truth, truth(pool));
    OtherViews(s, s', pool, truth);
  }

  lemma ReturnInv(c: Limits, ranks: Ranks, s: World, elapsed: nat, truth: string -> PoolMeta)
    requires WorldInv(c, s, truth)
    ensures WorldInv(c, Advance(c, ranks, s, Return(elapsed)), truth)
  {
    if s.queue.consumer.Handling? && s.stage.Returned? {
      FinishInv(c, s.queue, s.stage.ok, s.queue.clock + elapsed);
      ReturnBalanced(c, ranks, s, elapsed, truth);
    }
  }

  // ----- The end of a process -----

  lemma WaitingIsRest(c: Limits, s: World, pool: string)
    requires Inv(c, s.queue)
    ensures BookOf(s.queue, pool).accepted == Messages(BookOf(s.queue, pool).retired) + (InFlight(s, pool) + Waiting(s, pool))
    ensures Group(s.queue.q, pool) == InFlight(s, pool) + Waiting(s, pool)
  {
    assert PoolInv(c, s.queue, pool);
  }

  lemma OwedSplit(retired: seq<Retired>, inFlight: seq<Message>, queued: seq<Message>, meta: PoolMeta)
    ensures Owed(Messages(retired) + (inFlight + queued), meta)
         == (Owed(WithFate(retired, Handled), meta) + Owed(WithFate(retired, Dropped), meta)) + (Owed(inFlight, meta) + Owed(queued, meta))
  {
    HandledOrDropped(retired, meta);
    OwedAppend(Messages(retired), inFlight + queued, meta);
    OwedAppend(inFlight, queued, meta);
  }

  lemma ClosedOwed(done: seq<Message>, lost: seq<Message>, handled: seq<Message>, dropped: seq<Message>,
                   inFlight: seq<Message>, waiting: seq<Message>, accepted: seq<Message>, meta: PoolMeta)
    requires Owed(accepted, meta) == (Owed(handled, meta) + Owed(dropped, meta)) + (Owed(inFlight, meta) + Owed(waiting, meta))
    ensures Owed(((done + (handled + inFlight)) + (lost + (dropped + waiting))) + [], meta) == Owed((done + lost) + accepted, meta)
    ensures Owed((done + (handled + inFlight)) + [], meta) == Owed(done + handled, meta) + Owed(inFlight, meta)
  {
    assert ((done + (handled + inFlight)) + (lost + (dropped + waiting))) + [] == (done + (handled + inFlight)) + (lost + (dropped + waiting));
    assert (done + (handled + inFlight)) + [] == done + (handled + inFlight);
    OwedAppend(done + (handled + inFlight), lost + (dropped + waiting), meta);
    OwedAppend(done, handled + inFlight, meta);
    OwedAppend(handled, inFlight, meta);
    OwedAppend(done, handled, meta);
    OwedAppend(lost, dropped + waiting, meta);
    OwedAppend(dropped, waiting, meta);
    OwedAppend(done + lost, accepted, meta);
    OwedAppend(done, lost, meta);
    Regrouped(Owed(done, meta), Owed(lost, meta), Owed(handled, meta), Owed(dropped, meta), Owed(inFlight, meta), Owed(waiting, meta));
  }

  lemma Regrouped<T>(done: multiset<T>, lost: multiset<T>, handled: multiset<T>, dropped: multiset<T>, inFlight: multiset<T>, waiting: multiset<T>)
    ensures (done + (handled + inFlight)) + (lost + (dropped + waiting)) == (done + lost) + ((handled + dropped) + (inFlight + waiting))
    ensures done + (handled + inFlight) == (done + handled) + inFlight
  {
  }

  /** The view of a pool after the end of the process. */
  lemma ClosedView(s: World, loaded: set<string>, pool: string)
    requires pool in s.accounts || pool in s.queue.books || Closed(s, pool) == AccountOf(s, pool)
    ensures var a := Closed(s, pool);
      ViewOf(AfterRestart(s, loaded), pool) == View(a, (a.done + a.lost) + [], a.done + [], [], ByPool(s.written, pool))
  {
    assert BookOf(EMPTY, pool) == Book([], [], []) && WithFate([], Handled) == [];
    assert AccountOf(AfterRestart(s, loaded), pool) == Closed(s, pool);
  }

  lemma NothingToClose(c: Limits, s: World, pool: string)
    requires Inv(c, s.queue) && pool !in s.queue.books
    ensures Closed(s, pool) == AccountOf(s, pool)
  {
    WaitingIsRest(c, s, pool);
    var a := AccountOf(s, pool);
    assert InFlight(s, pool) == [] && Waiting(s, pool) == [];
    assert a.done + ([] + []) == a.done && a.lost + ([] + []) == a.lost;
  }

  lemma ClosedFair(v: View, handled: seq<Message>, dropped: seq<Message>, waiting: seq<Message>, accepted: seq<Message>,
                   truth: string -> PoolMeta, meta: PoolMeta)
    requires v.accepted == (v.account.done + v.account.lost) + accepted && v.handled == v.account.done + handled
    requires Owed(accepted, meta) == (Owed(handled, meta) + Owed(dropped, meta)) + (Owed(v.inFlight, meta) + Owed(waiting, meta))
    requires Fair(v, truth, meta)
    ensures var a := v.account.(done := v.account.done + (handled + v.inFlight), lost := v.account.lost + (dropped + waiting));
      Fair(View(a, (a.done + a.lost) + [], a.done + [], [], v.written), truth, meta)
  {
    var a := v.account.(done := v.account.done + (handled + v.inFlight), lost := v.account.lost + (dropped + waiting));
    ClosedOwed(v.account.done, v.account.lost, handled, dropped, v.inFlight, waiting, accepted, meta);
    SameOwed(v, View(a, (a.done + a.lost) + [], a.done + [], [], v.written), truth, meta);
  }

  /** Fairness sees of the messages only what is owed to them. */
  lemma SameOwed(v: View, v': View, truth: string -> PoolMeta, meta: PoolMeta)
    requires Fair(v, truth, meta) && v'.written == v.written && v'.inFlight == []
    requires v'.account == v.account.(done := v'.account.done, lost := v'.account.lost)
    requires Owed(v'.accepted, meta) == Owed(v.accepted, meta)
    requires Owed(v'.handled, meta) == Owed(v.handled, meta) + Owed(v.inFlight, meta)
    ensures Fair(v', truth, meta)
  {
    NothingOwed(meta);
    assert Owed(v'.handled, meta) + multiset{} == Owed(v'.handled, meta);
  }

  lemma RestartFair(c: Limits, s: World, loaded: set<string>, truth: string -> PoolMeta, pool: string)
    requires Inv(c, s.queue) && PoolFair(s, truth, pool)
    ensures PoolFair(AfterRestart(s, loaded), truth, pool)
  {
    var b := BookOf(s.queue, pool);
    if pool !in s.queue.books {
      NothingToClose(c, s, pool);
    }
    ClosedView(s, loaded, pool);
    WaitingIsRest(c, s, pool);
    OwedSplit(b.retired, InFlight(s, pool), Waiting(s, pool), truth(pool));
    ClosedFair(ViewOf(s, pool), WithFate(b.retired, Handled), WithFate(b.retired, Dropped), Waiting(s, pool), b.accepted, truth, truth(pool));
  }

  lemma WarmedAgrees(pools: PoolTable, loaded: set<string>, truth: string -> PoolMeta)
    requires TrueTable(pools, truth)
    ensures Agrees(Warmed(pools, loaded), truth)
  {
  }

  lemma RestartInv(c: Limits, s: World, loaded: set<string>, truth: string -> PoolMeta)
    requires WorldInv(c, s, truth)
    ensures WorldInv(c, AfterRestart(s, loaded), truth)
  {
    var s' := AfterRestart(s, loaded);
    PendingQueue.RunInv(c, []);
    WarmedAgrees(s.pools, loaded, truth);
    forall pool ensures PoolFair(s', truth, pool) {
      assert PoolFair(s, truth, pool);
      RestartFair(c, s, loaded, truth, pool);
    }
  }

  // ----- Every run -----

  lemma MoveInv(c: Limits, ranks: Ranks, s: World, m: Move, truth: string -> PoolMeta)
    requires WorldInv(c, s, truth)
    requires TrueMove(m, truth, if s.queue.consumer.Handling? then s.queue.consumer.pool else "")
    ensures WorldInv(c, Advance(c, ranks, s, m), truth)
  {
    match m {
      case Scan(step) => ScanInv(c, ranks, s, step, truth);
      case Gather(more) => GatherInv(c, ranks, s, more, truth);
      case List(order) => ListInv(c, ranks, s, order, truth);
      case Call => CallInv(c, ranks, s, truth);
      case Resolve(meta) => ResolveInv(c, ranks, s, meta, truth);
      case Persist(stored, decimals0, decimals1) =>
        if s.queue.consumer.Handling? && s.stage.Resolved? {
          PersistInv(c, s, Taken(s.stage.meta, stored), decimals0, decimals1, truth);
        }
      case Return(elapsed) => ReturnInv(c, ranks, s, elapsed, truth);
      case StoreBatch(w) => StoreBatchInv(c, s, w, truth);
      case Restart(loaded) => RestartInv(c, s, loaded, truth);
    }
  }

  lemma StartInv(c: Limits, truth: string -> PoolMeta)
    ensures WorldInv(c, START, truth)
  {
    PendingQueue.RunInv(c, []);
    assert Strip([]) == [];
  }

  lemma TrueMovesBefore(c: Limits, ranks: Ranks, moves: seq<Move>, truth: string -> PoolMeta)
    requires moves != [] && TrueMoves(c, ranks, moves, truth)
    ensures TrueMoves(c, ranks, moves[..|moves| - 1], truth)
    ensures var q := RunMoves(c, ranks, START, moves[..|moves| - 1]).queue;
      TrueMove(moves[|moves| - 1], truth, if q.consumer.Handling? then q.consumer.pool else "")
  {
    var n := |moves| - 1;
    assert forall i :: 0 <= i < n ==> moves[..n][..i] == moves[..i] && moves[..n][i] == moves[i];
  }

  lemma {:induction false} MovesInv(c: Limits, ranks: Ranks, moves: seq<Move>, truth: string -> PoolMeta)
    requires TrueMoves(c, ranks, moves, truth)
    ensures WorldInv(c, RunMoves(c, ranks, START, moves), truth)
  {
    if moves == [] {
      StartInv(c, truth);
    } else {
      var n := |moves| - 1;
      TrueMovesBefore(c, ranks, moves, truth);
      MovesInv(c, ranks, moves[..n], truth);
      MoveInv(c, ranks, RunMoves(c, ranks, START, moves[..n]), moves[n], truth);
    }
  }

  // ----- Where every swap's records are -----

  lemma Rearranged<T>(hot: multiset<T>, refused: multiset<T>, all: multiset<T>, done: multiset<T>, lost: multiset<T>,
                      handled: multiset<T>, dropped: multiset<T>, inFlight: multiset<T>, queued: multiset<T>, kept: multiset<T>, unstored: multiset<T>)
    requires hot + refused + ((done + lost) + ((handled + dropped) + (inFlight + queued))) == all
    requires (done + handled) + inFlight == kept + unstored
    ensures hot + kept + unstored + dropped + queued + refused + lost == all
  {
    assert (done + lost) + ((handled + dropped) + (inFlight + queued)) == ((done + handled) + inFlight) + (lost + dropped + queued);
    assert hot + refused + ((kept + unstored) + (lost + dropped + queued)) == hot + kept + unstored + dropped + queued + refused + lost;
  }

  lemma AcceptedSplit(c: Limits, s: World, pool: string, meta: PoolMeta)
    requires Inv(c, s.queue)
    ensures var a, b := AccountOf(s, pool), BookOf(s.queue, pool);
      && Owed(AcceptedOf(s, pool), meta) == (Owed(a.done, meta) + Owed(a.lost, meta))
         + ((Owed(WithFate(b.retired, Handled), meta) + Owed(WithFate(b.retired, Dropped), meta)) + (Owed(InFlight(s, pool), meta) + Owed(Waiting(s, pool), meta)))
      && Owed(HandledOf(s, pool), meta) == Owed(a.done, meta) + Owed(WithFate(b.retired, Handled), meta)
  {
    var a, b := AccountOf(s, pool), BookOf(s.queue, pool);
    WaitingIsRest(c, s, pool);
    OwedSplit(b.retired, InFlight(s, pool), Waiting(s, pool), meta);
    OwedAppend(a.done + a.lost, b.accepted, meta);
    OwedAppend(a.done, a.lost, meta);
    OwedAppend(a.done, WithFate(b.retired, Handled), meta);
  }

  /** In every run of hot path, worker and store, with any failures and restarts: the
      records the hot path returned, those of successful visits, and those due to
      messages without a store, dropped, still queued or lost with a process and to
      refused swaps are together exactly the records of all scanned swaps of the pool.
      What the store holds is that of the successful visits and, once more, of those
      whose acknowledgement was lost. */
  lemma EverySwapAccountedFor(c: Limits, ranks: Ranks, moves: seq<Move>, truth: string -> PoolMeta, pool: string)
    requires TrueMoves(c, ranks, moves, truth)
    ensures var s, meta := RunMoves(c, ranks, START, moves), truth(pool);
      var a, b := AccountOf(s, pool), BookOf(s.queue, pool);
      && multiset(Strip(a.hot)) + multiset(Strip(a.kept)) + Owed(a.unstored, meta)
         + Owed(WithFate(b.retired, Dropped), meta) + Owed(Waiting(s, pool), meta) + multiset(Ideal(a.refused, truth)) + Owed(a.lost, meta)
         == multiset(Ideal(a.scanned, truth))
      && multiset(ByPool(s.written, pool)) == multiset(a.kept) + multiset(a.again)
      && Group(s.queue.q, pool) == InFlight(s, pool) + Waiting(s, pool)
  {
    var s, meta := RunMoves(c, ranks, START, moves), truth(pool);
    MovesInv(c, ranks, moves, truth);
    assert PoolFair(s, truth, pool);
    AcceptedSplit(c, s, pool, meta);
    WaitingIsRest(c, s, pool);
    var a, b := AccountOf(s, pool), BookOf(s.queue, pool);
    Rearranged(multiset(Strip(a.hot)), multiset(Ideal(a.refused, truth)), multiset(Ideal(a.scanned, truth)), Owed(a.done, meta), Owed(a.lost, meta),
               Owed(WithFate(b.retired, Handled), meta), Owed(WithFate(b.retired, Dropped), meta),
               Owed(InFlight(s, pool), meta), Owed(Waiting(s, pool), meta), multiset(Strip(a.kept)), Owed(a.unstored, meta));
  }

  /** There is a store, and it never applies a write without acknowledging it. */
  ghost predicate CleanStore(moves: seq<Move>) {
    forall i :: 0 <= i < |moves| && moves[i].Persist? ==> moves[i].stored.Some? && !moves[i].stored.value.AppliedUnacked?
  }

  lemma MoveKeepsClean(c: Limits, ranks: Ranks, s: World, m: Move, pool: string)
    requires m.Persist? ==> m.stored.Some? && !m.stored.value.AppliedUnacked?
    ensures AccountOf(Advance(c, ranks, s, m), pool).unstored == AccountOf(s, pool).unstored
    ensures AccountOf(Advance(c, ranks, s, m), pool).again == AccountOf(s, pool).again
  {
    if m.Scan? && m.step.SwapSeen? && LegsOf(m.step.log).Some? {
      var log := m.step.log;
      SameStores(AccountOf(s, log.pool), log, KnownAt(s.cache, log, m.step.redis), m.step.decimals0, m.step.decimals1, s.queue.q.total >= c.maxTotal);
    }
  }

  lemma {:induction false} CleanAccounts(c: Limits, ranks: Ranks, moves: seq<Move>, pool: string)
    requires CleanStore(moves)
    ensures var a := AccountOf(RunMoves(c, ranks, START, moves), pool); a.unstored == [] && a.again == []
  {
    if moves != [] {
      var n := |moves| - 1;
      CleanAccounts(c, ranks, moves[..n], pool);
      MoveKeepsClean(c, ranks, RunMoves(c, ranks, START, moves[..n]), moves[n], pool);
    }
  }

  /** With such a store a message is retired as handled exactly when its two records
      are stored, and they are stored once: the store holds the records of the
      messages handled in this and in earlier processes and of the batch about to be
      committed, and no others. */
  lemma HandledIsStored(c: Limits, ranks: Ranks, moves: seq<Move>, truth: string -> PoolMeta, pool: string)
    requires TrueMoves(c, ranks, moves, truth) && CleanStore(moves)
    ensures var s := RunMoves(c, ranks, START, moves);
      multiset(ByPool(s.written, pool)) == multiset(AccountOf(s, pool).kept)
    ensures var s := RunMoves(c, ranks, START, moves);
      multiset(Strip(AccountOf(s, pool).kept)) == Owed(HandledOf(s, pool), truth(pool)) + Owed(InFlight(s, pool), truth(pool))
  {
    MovesInv(c, ranks, moves, truth);
    CleanAccounts(c, ranks, moves, pool);
    assert PoolFair(RunMoves(c, ranks, START, moves), truth, pool);
    NothingOwed(truth(pool));
  }
}
