/** A run in which re-scanning damages a table. */
module ScanWitness {
  import opened Outcomes
  import opened FallbackTracker
  import opened UpsertTables
  import opened Replay
  import opened BlockScanner
  import opened ScanRuns
  import opened Rescan

  /** Two blocks a batch, from block one. */
  const CONFIG := Config(1, Some(ChainConfig(1, 1)))

  /** Blocks one and four write the same pool. */
  ghost const CHAIN := Rivals(1, 4)

  function PoolRow(fee: int): DexData {
    NO_DATA.(pools := [Row("pool", PoolCols("", "", "", "", fee, ""), None)])
  }

  /** What blocks `first` and `first + 1` contain on that chain. */
  function Content(first: int): DexData {
    if first == 1 then PoolRow(1) else if first == 3 then PoolRow(4) else NO_DATA
  }

  lemma ContentOfBlocks(first: int)
    requires first == 1 || first == 3 || first == 5
    ensures Content(first).pools == Rows(PoolsOf(CHAIN), Interval(first, first + 1))
  {
    var log := Interval(first, first + 1);
    assert log == [first, first + 1];
    assert log[1..] == [first + 1] && log[1..][1..] == [];
    assert Rows(PoolsOf(CHAIN), [first + 1]) == PoolsOf(CHAIN)(first + 1) + Rows(PoolsOf(CHAIN), []);
  }

  /** A batch of the two blocks from `first` in which only reading the checkpoint
      can fail. */
  function FetchTwo(first: int, readsOk: bool): Env {
    Env(ReadFaults(readsOk, readsOk), Ok(100), Ok([Block(first, 0), Block(first + 1, 0)]), Ok([Content(first)]),
        Acked, Acked, Acked, WriteFaults(Acked, Acked))
  }

  /** A double read failure restarts from block one; when the primary is back the
      scan resumes from its newer checkpoint. */
  const RUN: seq<ScanEvent> :=
    [Tick(FetchTwo(1, true)), Tick(FetchTwo(3, true)), Tick(FetchTwo(1, false)), Health(true), Tick(FetchTwo(5, true))]

  lemma SmallStorable(first: int)
    ensures Storable(Content(first))
  {
    var d := Content(first);
    assert forall c: nat :: c * CHUNK < |d.pools| ==> |Chunk(d.pools, c * CHUNK)| <= 1;
  }

  lemma OnePart(d: DexData)
    ensures Merged([d]) == d
  {
    assert [d][..0] == [];
  }

  ghost function Committed(s: Scan, first: int): Scan {
    var blocks := [Block(first, 0), Block(first + 1, 0)];
    s.(requests := s.requests + [Range(first, first + 1)],
       blockRows := s.blockRows + AsSet(blocks), transactionRows := s.transactionRows + AsSet(blocks),
       tables := Stored(s.tables, Content(first)),
       commits := s.commits + [Commit(Range(first, first + 1), blocks, Content(first))])
  }

  lemma NoTransactions(first: int)
    ensures TransactionCount([Block(first, 0), Block(first + 1, 0)]) == 0
  {
    var blocks := [Block(first, 0), Block(first + 1, 0)];
    assert blocks[..1] == [Block(first, 0)] && [Block(first, 0)][..0] == [];
    assert TransactionCount([Block(first, 0)]) == 0;
  }

  lemma FetchTwoCommits(s: Scan, first: int, readsOk: bool)
    requires 1 <= first <= 5
    requires var answer := Get(s.tracker, ReadFaults(readsOk, readsOk)).1;
      var last := (if answer.Ok? then answer.value else DEFAULT_PROGRESS).lastBlock;
      last == first - 1
    ensures var (tracker, answer) := Get(s.tracker, ReadFaults(readsOk, readsOk));
      var p := Checkpoint(if answer.Ok? then answer.value else DEFAULT_PROGRESS, Range(first, first + 1),
                          [Block(first, 0), Block(first + 1, 0)], Content(first));
      Batch(CONFIG, 10, s, FetchTwo(first, readsOk)).0
      == Committed(s, first).(tracker := Update(tracker, 10, p, WriteFaults(Acked, Acked)).0)
  {
    SmallStorable(first);
    OnePart(Content(first));
    var blocks := [Block(first, 0), Block(first + 1, 0)];
    NoTransactions(first);
    if Content(first).Total() == 0 {
      StoredEmpty(s.tables);
    }
  }

  ghost function Prefix(n: nat): Scan
    requires n <= 5
  {
    After(CONFIG, 10, RUN[..n])
  }

  lemma PrefixStep(n: nat)
    requires n < 5
    ensures RUN[..n + 1][..n] == RUN[..n] && |RUN[..n + 1]| == n + 1 && RUN[..n + 1][n] == RUN[n]
  {
  }

  function CommitOf(first: int): Commit {
    Commit(Range(first, first + 1), [Block(first, 0), Block(first + 1, 0)], Content(first))
  }

  lemma FirstThree()
    ensures Prefix(3).commits == [CommitOf(1), CommitOf(3), CommitOf(1)]
    ensures Prefix(3).tables == Stored(Stored(Stored(EMPTY_TABLES, Content(1)), Content(3)), Content(1))
    ensures Prefix(3).tracker.primary.Some? && Prefix(3).tracker.primary.value.lastBlock == 4
  {
    assert Prefix(0) == INITIAL;
    PrefixStep(0);
    FetchTwoCommits(Prefix(0), 1, true);
    PrefixStep(1);
    FetchTwoCommits(Prefix(1), 3, true);
    PrefixStep(2);
    FetchTwoCommits(Prefix(2), 1, false);
  }

  lemma WholeRun()
    ensures After(CONFIG, 10, RUN).commits == [CommitOf(1), CommitOf(3), CommitOf(1), CommitOf(5)]
    ensures After(CONFIG, 10, RUN).tables == Stored(Stored(Stored(EMPTY_TABLES, PoolRow(1)), PoolRow(4)), PoolRow(1))
  {
    FirstThree();
    PrefixStep(3);
    PrefixStep(4);
    assert RUN[..5] == RUN;
    FetchTwoCommits(Prefix(4), 5, true);
    StoredEmpty(Prefix(4).tables);
  }

  lemma LastPoolFee(t: Tables, fee: int)
    ensures var pools := Stored(t, PoolRow(fee)).pools; "pool" in pools && pools["pool"].cols.fee == fee
  {
    var rows := PoolRow(fee).pools;
    assert rows[..0] == [];
    assert UpsertAll(t.pools, rows) == Upsert(t.pools, rows[0]);
  }

  lemma CommitsFaithful(k: string)
    ensures FaithfulAt(PoolsOf(CHAIN), PoolRows(), [CommitOf(1), CommitOf(3), CommitOf(1), CommitOf(5)], k)
  {
    ContentOfBlocks(1);
    ContentOfBlocks(3);
    ContentOfBlocks(5);
  }

  lemma RangesSnoc(commits: seq<Commit>, c: Commit)
    ensures Ranges(commits + [c]) == Ranges(commits) + [c.range]
    ensures Top(1, Ranges(commits + [c])) == if c.range.last > Top(1, Ranges(commits)) then c.range.last else Top(1, Ranges(commits))
  {
    assert (commits + [c])[..|commits|] == commits;
    var ranges := Ranges(commits) + [c.range];
    assert ranges[..|ranges| - 1] == Ranges(commits);
  }

  lemma FourCommits(a: Commit, b: Commit, c: Commit, d: Commit)
    requires a.range.last == 2 && b.range.last == 4 && c.range.last == 2 && d.range.last == 6
    ensures Top(1, Ranges([a, b, c, d])) == 6
  {
    RangesSnoc([], a);
    RangesSnoc([a], b);
    RangesSnoc([a, b], c);
    RangesSnoc([a, b, c], d);
    assert [] + [a] == [a] && [a] + [b] == [a, b] && [a, b] + [c] == [a, b, c] && [a, b, c] + [d] == [a, b, c, d];
  }

  lemma ScannedPoolFee()
    ensures var pools := TablesAfter(CHAIN, Interval(1, 6)).pools; "pool" in pools && pools["pool"].cols.fee == 4
  {
    var ideal := Interval(1, 6);
    assert ideal[3] == 4;
    LastRivalWins(1, 4, ideal, 3);
    UpsertedAt(map[], Rows(PoolsOf(CHAIN), ideal), "pool");
    TablesAreFolds(CHAIN, ideal);
  }

  /** Every batch of the run stored what its blocks contain and blocks one to six
      are all stored, yet the pool holds what block one wrote and not what block
      four wrote over it. */
  lemma ForwardJumpDamages()
    ensures var s := After(CONFIG, 10, RUN);
      && (forall k :: FaithfulAt(PoolsOf(CHAIN), PoolRows(), s.commits, k))
      && Reach(1, s) == 6
      && "pool" in s.tables.pools && s.tables.pools["pool"].cols.fee == 1
    ensures var scan := TablesAfter(CHAIN, Interval(1, 6));
      "pool" in scan.pools && scan.pools["pool"].cols.fee == 4
  {
    WholeRun();
    forall k ensures FaithfulAt(PoolsOf(CHAIN), PoolRows(), After(CONFIG, 10, RUN).commits, k) {
      CommitsFaithful(k);
    }
    FourCommits(CommitOf(1), CommitOf(3), CommitOf(1), CommitOf(5));
    LastPoolFee(Stored(Stored(EMPTY_TABLES, PoolRow(1)), PoolRow(4)), 1);
    ScannedPoolFee();
  }
}
