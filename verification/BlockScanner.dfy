/** The engine's batch step: read a checkpoint, choose a block range, fetch and
    store it, write the new checkpoint. */
module BlockScanner {
  import opened Outcomes
  import opened FallbackTracker
  import opened UpsertTables
  import opened Replay

  datatype ChainConfig = ChainConfig(startBlock: int, batchSize: int)

  datatype Config = Config(batchSize: int, chain: Option<ChainConfig>)

  datatype Block = Block(number: int, transactions: nat)

  /** A batch whose DEX rows are in the tables. */
  datatype Commit = Commit(range: Range, blocks: seq<Block>, dex: DexData)

  datatype Scan = Scan(
    tracker: Tracker,
    requests: seq<Range>,
    blockRows: set<Block>,
    transactionRows: set<Block>,
    tables: Tables,
    commits: seq<Commit>)

  /** What the stores, the node and the extractors do during one batch; each
      extractor answers with its rows. */
  datatype Env = Env(
    readFaults: ReadFaults,
    latest: Result<int>,
    blocks: Result<seq<Block>>,
    dex: Result<seq<DexData>>,
    storeBlocks: Write,
    storeTransactions: Write,
    storeDex: Write,
    saveFaults: WriteFaults)

  const INITIAL := Scan(Tracker(None, None, 0, true), [], {}, {}, EMPTY_TABLES, [])

  // ----- The batch step -----

  function StartBlock(cfg: Config): int {
    if cfg.chain.Some? && cfg.chain.value.startBlock > 0 then cfg.chain.value.startBlock else 0
  }

  function BatchSize(cfg: Config): int {
    if cfg.chain.Some? && cfg.chain.value.batchSize > 0 then cfg.chain.value.batchSize else cfg.batchSize
  }

  /** The blocks to fetch after a checkpoint; both ends are fetched. */
  function BatchRange(cfg: Config, p: Progress, latest: int): Range {
    var first :=
      if p.lastBlock == 0 then
        if StartBlock(cfg) > 0 then StartBlock(cfg) else latest - 100
      else p.lastBlock + 1;
    var last := first + BatchSize(cfg);
    Range(first, if last > latest then latest else last)
  }

  function TransactionCount(blocks: seq<Block>): nat {
    if blocks == [] then 0
    else TransactionCount(blocks[..|blocks| - 1]) + blocks[|blocks| - 1].transactions
  }

  function Checkpoint(p: Progress, range: Range, blocks: seq<Block>, dex: DexData): Progress {
    Progress(range.last, p.totalTransactions + TransactionCount(blocks), p.totalEvents + dex.Total())
  }

  /** The rows of a batch, extractor by extractor. */
  function Merged(parts: seq<DexData>): DexData {
    if parts == [] then NO_DATA else Merged(parts[..|parts| - 1]).Append(parts[|parts| - 1])
  }

  ghost function AsSet(blocks: seq<Block>): set<Block> {
    set b | b in blocks
  }

  /** Storing a batch's DEX rows, which commits the batch; there may be none. */
  ghost function StoreDex(s: Scan, c: Commit, w: Write): (Scan, bool) {
    if c.dex.Total() == 0 then (s.(commits := s.commits + [c]), true)
    else if !Storable(c.dex) || !w.Applied() then (s, false)
    else (s.(tables := Stored(s.tables, c.dex), commits := s.commits + [c]), w.Acked?)
  }

  /** Storing a batch's transactions, if it has any, and then its DEX rows. */
  ghost function StoreRest(s: Scan, c: Commit, env: Env): (Scan, bool) {
    var sends := TransactionCount(c.blocks) > 0;
    var s' := if !sends || env.storeTransactions.Applied()
              then s.(transactionRows := s.transactionRows + AsSet(c.blocks)) else s;
    if sends && !env.storeTransactions.Acked? then (s', false) else StoreDex(s', c, env.storeDex)
  }

  /** Storing a fetched batch: blocks, then transactions, then DEX rows, stopping
      at the first write that is not acknowledged. */
  ghost function StoreBatch(s: Scan, c: Commit, env: Env): (Scan, bool) {
    var s' := if env.storeBlocks.Applied() then s.(blockRows := s.blockRows + AsSet(c.blocks)) else s;
    if !env.storeBlocks.Acked? then (s', false) else StoreRest(s', c, env)
  }

  /** Storing a fetched batch and, once all of it is acknowledged, its checkpoint. */
  ghost function ProcessRange(interval: SyncInterval, s: Scan, p: Progress, c: Commit, env: Env): (Scan, bool) {
    var (s', stored) := StoreBatch(s, c, env);
    if !stored then (s', false)
    else (s'.(tracker := Update(s'.tracker, interval, Checkpoint(p, c.range, c.blocks, c.dex), env.saveFaults).0), true)
  }

  /** The batch step after the checkpoint is read. */
  ghost function BatchAfter(cfg: Config, interval: SyncInterval, s: Scan, p: Progress, env: Env): (Scan, bool) {
    if env.latest.Err? then (s, false)
    else
      var range := BatchRange(cfg, p, env.latest.value);
      if range.first >= range.last then (s, true)
      else
        var s' := s.(requests := s.requests + [range]);
        if env.blocks.Err? then (s', false)
        else if env.blocks.value == [] then (s', true)
        else if env.dex.Err? then (s', false)
        else ProcessRange(interval, s', p, Commit(range, env.blocks.value, Merged(env.dex.value)), env)
  }

  /** One call of the batch step, and whether it reports success. */
  ghost function Batch(cfg: Config, interval: SyncInterval, s: Scan, env: Env): (Scan, bool) {
    var (tracker, answer) := Get(s.tracker, env.readFaults);
    BatchAfter(cfg, interval, s.(tracker := tracker), if answer.Ok? then answer.value else DEFAULT_PROGRESS, env)
  }

  /** What a batch requests after a checkpoint: from the block behind it, or from where
      the configuration starts, as many further blocks as the chain's own batch size
      says, or the global one when the chain has none, but not beyond the tip. */
  ghost predicate Requests(cfg: Config, p: Progress, latest: int, r: Range) {
    && (p.lastBlock != 0 ==> r.first == p.lastBlock + 1)
    && (p.lastBlock == 0 && cfg.chain.Some? && cfg.chain.value.startBlock > 0 ==> r.first == cfg.chain.value.startBlock)
    && (p.lastBlock == 0 && (cfg.chain.None? || cfg.chain.value.startBlock <= 0) ==> r.first == latest - 100)
    && (cfg.chain.Some? && cfg.chain.value.batchSize > 0 ==> SmallerOf(r.last, latest, r.first + cfg.chain.value.batchSize))
    && (cfg.chain.None? || cfg.chain.value.batchSize <= 0 ==> SmallerOf(r.last, latest, r.first + cfg.batchSize))
  }

  ghost predicate SmallerOf(n: int, a: int, b: int) {
    n <= a && n <= b && (n == a || n == b)
  }

  /** A batch requests at most one range, and exactly when the node tells the tip and
      more than one block up to it is left; the range is the configured one. */
  lemma BatchRequests(cfg: Config, interval: SyncInterval, s: Scan, env: Env)
    ensures var s', answer := Batch(cfg, interval, s, env).0, Get(s.tracker, env.readFaults).1;
      var p := if answer.Ok? then answer.value else DEFAULT_PROGRESS;
      && (s'.requests != s.requests ==>
            && |s'.requests| == |s.requests| + 1 && s'.requests[..|s.requests|] == s.requests
            && env.latest.Ok? && Requests(cfg, p, env.latest.value, s'.requests[|s.requests|]))
      && (s'.requests == s.requests <==>
            env.latest.Err? || forall r :: Requests(cfg, p, env.latest.value, r) ==> r.first >= r.last)
  {
    var answer := Get(s.tracker, env.readFaults).1;
    var p := if answer.Ok? then answer.value else DEFAULT_PROGRESS;
    if env.latest.Ok? {
      var range := BatchRange(cfg, p, env.latest.value);
      assert Requests(cfg, p, env.latest.value, range);
      BatchAfterRequests(cfg, interval, s.(tracker := Get(s.tracker, env.readFaults).0), p, env);
      assert (s.requests + [range])[..|s.requests|] == s.requests;
    }
  }

  lemma BatchAfterRequests(cfg: Config, interval: SyncInterval, s: Scan, p: Progress, env: Env)
    requires env.latest.Ok?
    ensures var range := BatchRange(cfg, p, env.latest.value);
      BatchAfter(cfg, interval, s, p, env).0.requests == if range.first >= range.last then s.requests else s.requests + [range]
  {
  }

  // ----- Counting and merging -----

  /** The count is that of a sum. */
  lemma {:induction false} CountIsSum(a: seq<Block>, b: seq<Block>, block: Block)
    ensures TransactionCount([]) == 0 && TransactionCount([block]) == block.transactions
    ensures TransactionCount(a + b) == TransactionCount(a) + TransactionCount(b)
  {
    assert [block][..0] == [];
    if b == [] {
      assert a + b == a;
    } else {
      CountIsSum(a, b[..|b| - 1], block);
      assert (a + b)[..|a + b| - 1] == a + b[..|b| - 1];
    }
  }

  /** Some block has a transaction. */
  ghost predicate SomeTransaction(blocks: seq<Block>) {
    exists i :: 0 <= i < |blocks| && blocks[i].transactions > 0
  }

  ghost predicate NoRow(d: DexData) {
    d.pools == [] && d.tokens == [] && d.transactions == [] && d.liquidities == [] && d.reserves == []
  }

  /** Some extractor has a row. */
  ghost predicate SomeRow(parts: seq<DexData>) {
    exists i :: 0 <= i < |parts| && !NoRow(parts[i])
  }

  lemma {:induction false} CountsSome(blocks: seq<Block>)
    ensures TransactionCount(blocks) > 0 <==> SomeTransaction(blocks)
  {
    if blocks != [] {
      var before := blocks[..|blocks| - 1];
      CountsSome(before);
      assert SomeTransaction(before) ==> SomeTransaction(blocks) by {
        if i :| 0 <= i < |before| && before[i].transactions > 0 {
          assert blocks[i].transactions > 0;
        }
      }
      assert forall i :: 0 <= i < |before| ==> before[i] == blocks[i];
    }
  }

  lemma {:induction false} MergesSome(parts: seq<DexData>)
    ensures Merged(parts).Total() > 0 <==> SomeRow(parts)
  {
    if parts != [] {
      var before := parts[..|parts| - 1];
      MergesSome(before);
      assert SomeRow(before) ==> SomeRow(parts) by {
        if i :| 0 <= i < |before| && !NoRow(before[i]) {
          assert !NoRow(parts[i]);
        }
      }
      assert forall i :: 0 <= i < |before| ==> before[i] == parts[i];
    }
  }

  /** Every write that there is something for is acknowledged. */
  ghost predicate AllAcknowledged(blocks: seq<Block>, parts: seq<DexData>, env: Env) {
    && env.storeBlocks.Acked?
    && (SomeTransaction(blocks) ==> env.storeTransactions.Acked?)
    && (SomeRow(parts) ==> Storable(Merged(parts)) && env.storeDex.Acked?)
  }

  /** When a batch that requests a range goes through: there is nothing in the range, or
      it was fetched, extracted and stored. Whether the checkpoint could be saved is not
      asked. */
  ghost predicate GoesThrough(env: Env) {
    env.blocks.Ok? && (env.blocks.value == [] || (env.dex.Ok? && AllAcknowledged(env.blocks.value, env.dex.value, env)))
  }

  lemma StoreReports(s: Scan, c: Commit, parts: seq<DexData>, env: Env)
    requires c.dex == Merged(parts)
    ensures StoreBatch(s, c, env).1 <==> AllAcknowledged(c.blocks, parts, env)
  {
    CountsSome(c.blocks);
    MergesSome(parts);
  }

  lemma BatchReports(cfg: Config, interval: SyncInterval, s: Scan, env: Env)
    ensures var (s', ok) := Batch(cfg, interval, s, env);
      ok <==> env.latest.Ok? && (s'.requests == s.requests || GoesThrough(env))
  {
    var (tracker, answer) := Get(s.tracker, env.readFaults);
    var p, t := if answer.Ok? then answer.value else DEFAULT_PROGRESS, s.(tracker := tracker);
    if env.latest.Ok? {
      BatchAfterRequests(cfg, interval, t, p, env);
      var range := BatchRange(cfg, p, env.latest.value);
      if range.first < range.last && env.blocks.Ok? && env.blocks.value != [] && env.dex.Ok? {
        var c := Commit(range, env.blocks.value, Merged(env.dex.value));
        StoreReports(t.(requests := t.requests + [range]), c, env.dex.value, env);
      }
    }
  }

  // ----- The engine itself -----

  class Storage {
    const dexTables: PgStore
    ghost var blockRows: set<Block>
    ghost var transactionRows: set<Block>

    constructor (dexTables: PgStore)
      ensures this.dexTables == dexTables && blockRows == {} && transactionRows == {}
    {
      this.dexTables := dexTables;
      blockRows, transactionRows := {}, {};
    }

    method StoreBlocks(blocks: seq<Block>, w: Write) returns (ok: bool)
      modifies this`blockRows
      ensures blockRows == if w.Applied() then old(blockRows) + AsSet(blocks) else old(blockRows)
      ensures ok == w.Acked?
    {
      if w.Applied() {
        blockRows := blockRows + AsSet(blocks);
      }
      ok := w.Acked?;
    }

    method StoreTransactions(blocks: seq<Block>, w: Write) returns (ok: bool)
      modifies this`transactionRows
      ensures transactionRows == if w.Applied() then old(transactionRows) + AsSet(blocks) else old(transactionRows)
      ensures ok == w.Acked?
    {
      if w.Applied() {
        transactionRows := transactionRows + AsSet(blocks);
      }
      ok := w.Acked?;
    }
  }

  class Engine {
    const config: Config
    const tracker: FallbackProgressTracker
    const storage: Storage
    ghost var requests: seq<Range>
    ghost var commits: seq<Commit>

    ghost predicate Valid() {
      tracker.Valid()
    }

    ghost function Footprint(): set<object> {
      {this, tracker, tracker.primary, tracker.secondary, storage, storage.dexTables}
    }

    ghost function State(): Scan
      reads Footprint()
    {
      Scan(tracker.State(), requests, storage.blockRows, storage.transactionRows, storage.dexTables.tables, commits)
    }

    constructor (config: Config, tracker: FallbackProgressTracker, storage: Storage)
      requires tracker.Valid()
      ensures Valid() && this.config == config && this.tracker == tracker && this.storage == storage
      ensures requests == [] && commits == []
    {
      this.config, this.tracker, this.storage := config, tracker, storage;
      requests, commits := [], [];
    }

    method CountTransactions(blocks: seq<Block>) returns (total: nat)
      ensures total == TransactionCount(blocks)
    {
      total := 0;
      var i := 0;
      while i < |blocks|
        invariant 0 <= i <= |blocks|
        invariant total == TransactionCount(blocks[..i])
      {
        assert blocks[..i + 1][..i] == blocks[..i];
        total := total + blocks[i].transactions;
        i := i + 1;
      }
      assert blocks[..i] == blocks;
    }

    method MergeDexData(parts: seq<DexData>) returns (result: DexData)
      ensures result == Merged(parts)
    {
      result := NO_DATA;
      for i := 0 to |parts|
        invariant result == Merged(parts[..i])
      {
        assert parts[..i + 1][..i] == parts[..i];
        result := result.Append(parts[i]);
      }
      assert parts[..|parts|] == parts;
    }

    method StoreFetched(c: Commit, env: Env) returns (ok: bool)
      requires Valid()
      modifies this`commits, storage, storage.dexTables
      ensures (State(), ok) == StoreBatch(old(State()), c, env)
    {
      ok := storage.StoreBlocks(c.blocks, env.storeBlocks);
      if !ok {
        return;
      }
      var total := CountTransactions(c.blocks);
      if total > 0 {
        ok := storage.StoreTransactions(c.blocks, env.storeTransactions);
        if !ok {
          return;
        }
      } else {
        storage.transactionRows := storage.transactionRows + AsSet(c.blocks);
      }
      if c.dex.Total() > 0 {
        ok := storage.dexTables.StoreDexData(c.dex, env.storeDex);
        if Storable(c.dex) && env.storeDex.Applied() {
          commits := commits + [c];
        }
      } else {
        commits := commits + [c];
      }
    }

    method StoreAndCheckpoint(c: Commit, p: Progress, env: Env) returns (ok: bool)
      requires Valid()
      modifies Footprint()
      ensures (State(), ok) == ProcessRange(tracker.syncInterval, old(State()), p, c, env)
    {
      ok := StoreFetched(c, env);
      if !ok {
        return;
      }
      var total := CountTransactions(c.blocks);
      var next := Progress(c.range.last, p.totalTransactions + total, p.totalEvents + c.dex.Total());
      var _ := tracker.UpdateProgress(next, env.saveFaults);
    }

    method ProcessChainBatch(env: Env) returns (ok: bool)
      requires Valid()
      modifies Footprint()
      ensures (State(), ok) == Batch(config, tracker.syncInterval, old(State()), env)
    {
      var answer := tracker.GetProgress(env.readFaults);
      var p := if answer.Ok? then answer.value else DEFAULT_PROGRESS;
      if env.latest.Err? {
        return false;
      }
      var range := BatchRange(config, p, env.latest.value);
      if range.first >= range.last {
        return true;
      }
      requests := requests + [range];
      if env.blocks.Err? {
        return false;
      }
      var blocks := env.blocks.value;
      if |blocks| == 0 {
        return true;
      }
      if env.dex.Err? {
        return false;
      }
      var dex := MergeDexData(env.dex.value);
      ok := StoreAndCheckpoint(Commit(range, blocks, dex), p, env);
    }
  }
}
