/** What runs that scan blocks again do to the tables, key by key: a batch may store a
    key's rows differently the second time, because extractors know more by then. */
module Rescan {
  import opened Outcomes
  import opened FallbackTracker
  import opened UpsertTables
  import opened Replay
  import opened BlockScanner
  import opened ScanRuns

  // ----- The tables as streams of rows -----

  function PoolRows(): DexData -> seq<Row<string, PoolCols>> { (d: DexData) => d.pools }
  function TokenRows(): DexData -> seq<Row<string, TokenCols>> { (d: DexData) => d.tokens }
  function SwapRows(): DexData -> seq<Row<SwapKey, Columns>> { (d: DexData) => d.transactions }
  function LiquidityRows(): DexData -> seq<Row<LiquidityKey, Columns>> { (d: DexData) => d.liquidities }
  function ReserveRows(): DexData -> seq<Row<ReserveKey, ReserveCols>> { (d: DexData) => d.reserves }

  /** All rows of one table in the order they were stored. */
  ghost function Stream<R>(commits: seq<Commit>, rows: DexData -> seq<R>): seq<R> {
    if commits == [] then []
    else Stream(commits[..|commits| - 1], rows) + rows(commits[|commits| - 1].dex)
  }

  ghost function StreamTables(commits: seq<Commit>): Tables {
    Tables(UpsertAll(map[], Stream(commits, PoolRows())), UpsertAll(map[], Stream(commits, TokenRows())),
           InsertAll(map[], Stream(commits, SwapRows())), InsertAll(map[], Stream(commits, LiquidityRows())),
           UpsertAll(map[], Stream(commits, ReserveRows())))
  }

  lemma StoredStep(pools: seq<Row<string, PoolCols>>, tokens: seq<Row<string, TokenCols>>, swaps: seq<Row<SwapKey, Columns>>,
                   liquidities: seq<Row<LiquidityKey, Columns>>, reserves: seq<Row<ReserveKey, ReserveCols>>, d: DexData)
    ensures Stored(Tables(UpsertAll(map[], pools), UpsertAll(map[], tokens), InsertAll(map[], swaps), InsertAll(map[], liquidities), UpsertAll(map[], reserves)), d)
         == Tables(UpsertAll(map[], pools + d.pools), UpsertAll(map[], tokens + d.tokens), InsertAll(map[], swaps + d.transactions),
                   InsertAll(map[], liquidities + d.liquidities), UpsertAll(map[], reserves + d.reserves))
  {
    UpsertAllAppend(map[], pools, d.pools);
    UpsertAllAppend(map[], tokens, d.tokens);
    InsertAllAppend(map[], swaps, d.transactions);
    InsertAllAppend(map[], liquidities, d.liquidities);
    UpsertAllAppend(map[], reserves, d.reserves);
  }

  lemma {:induction false} TablesAreStreams(commits: seq<Commit>)
    ensures TablesOf(commits) == StreamTables(commits)
  {
    if commits != [] {
      var before := commits[..|commits| - 1];
      TablesAreStreams(before);
      StoredStep(Stream(before, PoolRows()), Stream(before, TokenRows()), Stream(before, SwapRows()),
                 Stream(before, LiquidityRows()), Stream(before, ReserveRows()), commits[|commits| - 1].dex);
    }
  }

  // ----- One key -----

  /** The rows for one key. */
  ghost function AtKey<K, V>(rows: seq<Row<K, V>>, k: K): seq<Row<K, V>> {
    if rows == [] then []
    else
      var before, r := AtKey(rows[..|rows| - 1], k), rows[|rows| - 1];
      if r.key == k then before + [r] else before
  }

  lemma {:induction false} AtKeyAppend<K, V>(a: seq<Row<K, V>>, b: seq<Row<K, V>>, k: K)
    ensures AtKey(a + b, k) == AtKey(a, k) + AtKey(b, k)
  {
    if b == [] {
      assert a + b == a;
    } else {
      AtKeyAppend(a, b[..|b| - 1], k);
      assert (a + b)[..|a + b| - 1] == a + b[..|b| - 1];
    }
  }

  lemma {:induction false} TablesAtKey<K(!new), V(!new)>(t: Table<K, V>, rows: seq<Row<K, V>>, k: K)
    ensures At(UpsertAll(t, rows), k) == At(UpsertAll(t, AtKey(rows, k)), k)
    ensures At(InsertAll(t, rows), k) == At(InsertAll(t, AtKey(rows, k)), k)
  {
    if rows != [] {
      var before, r := rows[..|rows| - 1], rows[|rows| - 1];
      TablesAtKey(t, before, k);
      if r.key == k {
        assert (AtKey(before, k) + [r])[..|AtKey(before, k)|] == AtKey(before, k);
      }
    }
  }

  /** Each batch stored for this key what its blocks contain for it, block by block. */
  ghost predicate FaithfulAt<K, V>(content: int -> seq<Row<K, V>>, rows: DexData -> seq<Row<K, V>>, commits: seq<Commit>, k: K) {
    forall i :: 0 <= i < |commits| ==>
      AtKey(rows(commits[i].dex), k) == AtKey(Rows(content, Interval(commits[i].range.first, commits[i].range.last)), k)
  }

  lemma {:induction false} StreamAtKey<K, V>(content: int -> seq<Row<K, V>>, rows: DexData -> seq<Row<K, V>>, commits: seq<Commit>, k: K)
    requires FaithfulAt(content, rows, commits, k)
    ensures AtKey(Stream(commits, rows), k) == AtKey(Rows(content, Expand(Ranges(commits))), k)
  {
    if commits != [] {
      var before, c := commits[..|commits| - 1], commits[|commits| - 1];
      StreamAtKey(content, rows, before, k);
      AtKeyAppend(Stream(before, rows), rows(c.dex), k);
      var ranges, more := Ranges(commits), Interval(c.range.first, c.range.last);
      assert ranges[..|ranges| - 1] == Ranges(before);
      RowsAppend(content, Expand(Ranges(before)), more);
      AtKeyAppend(Rows(content, Expand(Ranges(before))), Rows(content, more), k);
    }
  }

  lemma FaithfulKeys<K(!new), V(!new)>(content: int -> seq<Row<K, V>>, rows: DexData -> seq<Row<K, V>>, commits: seq<Commit>)
    ensures var stored, log := Stream(commits, rows), Rows(content, Expand(Ranges(commits)));
      forall k :: FaithfulAt(content, rows, commits, k) ==>
        At(UpsertAll(map[], stored), k) == At(UpsertAll(map[], log), k) && At(InsertAll(map[], stored), k) == At(InsertAll(map[], log), k)
  {
    var stored, log := Stream(commits, rows), Rows(content, Expand(Ranges(commits)));
    forall k | FaithfulAt(content, rows, commits, k)
      ensures At(UpsertAll(map[], stored), k) == At(UpsertAll(map[], log), k) && At(InsertAll(map[], stored), k) == At(InsertAll(map[], log), k)
    {
      StreamAtKey(content, rows, commits, k);
      TablesAtKey(map[], stored, k);
      TablesAtKey(map[], log, k);
    }
  }

  /** The insert-or-ignore tables agree at every key stored faithfully. */
  ghost predicate SameInserts(content: int -> DexData, commits: seq<Commit>, t: Tables, u: Tables) {
    && (forall k :: FaithfulAt(SwapsOf(content), SwapRows(), commits, k) ==> At(t.transactions, k) == At(u.transactions, k))
    && (forall k :: FaithfulAt(LiquiditiesOf(content), LiquidityRows(), commits, k) ==> At(t.liquidities, k) == At(u.liquidities, k))
  }

  /** So do the overwriting tables. */
  ghost predicate SameUpserts(content: int -> DexData, commits: seq<Commit>, t: Tables, u: Tables) {
    && (forall k :: FaithfulAt(PoolsOf(content), PoolRows(), commits, k) ==> At(t.pools, k) == At(u.pools, k))
    && (forall k :: FaithfulAt(TokensOf(content), TokenRows(), commits, k) ==> At(t.tokens, k) == At(u.tokens, k))
    && (forall k :: FaithfulAt(ReservesOf(content), ReserveRows(), commits, k) ==> At(t.reserves, k) == At(u.reserves, k))
  }

  lemma TablesOfLog(content: int -> DexData, commits: seq<Commit>)
    ensures var after := TablesAfter(content, Expand(Ranges(commits)));
      SameInserts(content, commits, TablesOf(commits), after) && SameUpserts(content, commits, TablesOf(commits), after)
  {
    TablesAreStreams(commits);
    TablesAreFolds(content, Expand(Ranges(commits)));
    FaithfulKeys(PoolsOf(content), PoolRows(), commits);
    FaithfulKeys(TokensOf(content), TokenRows(), commits);
    FaithfulKeys(SwapsOf(content), SwapRows(), commits);
    FaithfulKeys(LiquiditiesOf(content), LiquidityRows(), commits);
    FaithfulKeys(ReservesOf(content), ReserveRows(), commits);
  }

  // ----- After any run -----

  /** After any run, at every key that each batch stored as its blocks have it, the
      insert-or-ignore tables hold what a scan in which nothing ever failed holds. */
  lemma InsertTablesSurviveRescan(cfg: Config, interval: SyncInterval, events: seq<ScanEvent>, content: int -> DexData)
    requires StartBlock(cfg) > 0
    ensures var lo, s := StartBlock(cfg), After(cfg, interval, events);
      SameInserts(content, s.commits, s.tables, TablesAfter(content, Interval(lo, Reach(lo, s))))
  {
    var lo, s := StartBlock(cfg), After(cfg, interval, events);
    RunInv(cfg, interval, events);
    GrowingLog(lo, Ranges(s.commits));
    TablesOfLog(content, s.commits);
    InsertTablesExact(content, Expand(Ranges(s.commits)), lo, Reach(lo, s));
  }

  /** At such keys the tables are those of the log of stored blocks; and they equal the
      uninterrupted scan's for every chain content exactly when each block's last
      storing came before those of all higher blocks. */
  lemma RescanSafety(cfg: Config, interval: SyncInterval, events: seq<ScanEvent>)
    requires StartBlock(cfg) > 0
    ensures var lo, s := StartBlock(cfg), After(cfg, interval, events);
      var log := Expand(Ranges(s.commits));
      && (forall content :: SameInserts(content, s.commits, s.tables, TablesAfter(content, log))
                         && SameUpserts(content, s.commits, s.tables, TablesAfter(content, log)))
      && ((forall content :: SameTables(content, log, Interval(lo, Reach(lo, s)))) <==> Lasts(log) == Interval(lo, Reach(lo, s)))
  {
    var lo, s := StartBlock(cfg), After(cfg, interval, events);
    RunInv(cfg, interval, events);
    GrowingLog(lo, Ranges(s.commits));
    RescanSafeIff(Expand(Ranges(s.commits)), lo, Reach(lo, s));
    forall content
      ensures SameInserts(content, s.commits, s.tables, TablesAfter(content, Expand(Ranges(s.commits))))
           && SameUpserts(content, s.commits, s.tables, TablesAfter(content, Expand(Ranges(s.commits))))
    {
      TablesOfLog(content, s.commits);
    }
  }

  /** A run whose stored batches never jump forward and that ends at its highest
      block holds, at such keys, what the uninterrupted scan holds in every table,
      however often it went back. */
  lemma CaughtUpTables(cfg: Config, interval: SyncInterval, events: seq<ScanEvent>, content: int -> DexData)
    requires StartBlock(cfg) > 0
    requires var ranges := Ranges(After(cfg, interval, events).commits);
      NoForwardJump(ranges) && ranges != [] && ranges[|ranges| - 1].last == Top(StartBlock(cfg), ranges)
    ensures var lo, s := StartBlock(cfg), After(cfg, interval, events);
      var scan := TablesAfter(content, Interval(lo, Reach(lo, s)));
      SameInserts(content, s.commits, s.tables, scan) && SameUpserts(content, s.commits, s.tables, scan)
  {
    var lo, s := StartBlock(cfg), After(cfg, interval, events);
    var ranges := Ranges(s.commits);
    RunInv(cfg, interval, events);
    GrowingLog(lo, ranges);
    TopIsMax(lo, ranges);
    ChainInOrder(ranges);
    assert Expand(ranges) != [] by {
      assert ranges[0].first <= ranges[0].last;
      assert ranges[|ranges| - 1].last in Expand(ranges);
    }
    SameBounds(Bottom(ranges), lo, Top(lo, ranges), Expand(ranges));
    RescanSafety(cfg, interval, events);
    assert SameTables(content, Expand(ranges), Interval(lo, Top(lo, ranges)));
  }

  lemma {:induction false} TopIsMax(lo: int, ranges: seq<Range>)
    ensures forall i :: 0 <= i < |ranges| ==> ranges[i].last <= Top(lo, ranges)
  {
    if ranges != [] {
      var before := ranges[..|ranges| - 1];
      TopIsMax(lo, before);
      forall i | 0 <= i < |ranges| ensures ranges[i].last <= Top(lo, ranges) {
        assert i < |before| ==> before[i] == ranges[i];
      }
    }
  }

  lemma SameBounds(a: int, b: int, hi: int, log: seq<int>)
    requires log != [] && a <= hi && b <= hi
    requires forall n :: n in log <==> a <= n <= hi
    requires forall n :: n in log <==> b <= n <= hi
    ensures a == b
  {
    assert a in log && b in log;
  }

  // ----- Which keys are stored faithfully -----

  /** Merging the extractors' results merges their rows of the table. */
  ghost predicate Additive<R>(rows: DexData -> seq<R>) {
    rows(NO_DATA) == [] && forall a: DexData, b: DexData :: Adds(rows, a, b)
  }

  ghost predicate Adds<R>(rows: DexData -> seq<R>, a: DexData, b: DexData) {
    rows(a.Append(b)) == rows(a) + rows(b)
  }

  lemma TablesAdditive()
    ensures Additive(PoolRows()) && Additive(TokenRows()) && Additive(SwapRows()) && Additive(LiquidityRows()) && Additive(ReserveRows())
  {
  }

  /** Results are merged extractor by extractor, not block by block. A key that one
      extractor writes does not see the difference. */
  lemma {:induction false} OneExtractor<K, V>(parts: seq<DexData>, e: nat, rows: DexData -> seq<Row<K, V>>, k: K)
    requires e < |parts| && Additive(rows)
    requires forall i :: 0 <= i < |parts| && i != e ==> AtKey(rows(parts[i]), k) == []
    ensures AtKey(rows(Merged(parts)), k) == AtKey(rows(parts[e]), k)
  {
    var before, last := parts[..|parts| - 1], parts[|parts| - 1];
    assert Adds(rows, Merged(before), last);
    AtKeyAppend(rows(Merged(before)), rows(last), k);
    if e < |before| {
      OneExtractor(before, e, rows, k);
    } else {
      NoExtractor(before, rows, k);
    }
  }

  /** The rows of the merge are those of the extractors one after the other. */
  lemma {:induction false} MergedInOrder<R>(parts: seq<DexData>, rows: DexData -> seq<R>)
    requires Additive(rows)
    ensures rows(Merged(parts)) == Flatten(seq(|parts|, i requires 0 <= i < |parts| => rows(parts[i])))
  {
    if parts != [] {
      var n := |parts| - 1;
      var chunks := seq(|parts|, i requires 0 <= i < |parts| => rows(parts[i]));
      MergedInOrder(parts[..n], rows);
      assert Adds(rows, Merged(parts[..n]), parts[n]);
      assert chunks[..n] == seq(n, i requires 0 <= i < n => rows(parts[..n][i]));
    }
  }

  lemma {:induction false} NoExtractor<K, V>(parts: seq<DexData>, rows: DexData -> seq<Row<K, V>>, k: K)
    requires Additive(rows) && forall i :: 0 <= i < |parts| ==> AtKey(rows(parts[i]), k) == []
    ensures AtKey(rows(Merged(parts)), k) == []
  {
    if parts != [] {
      var before, last := parts[..|parts| - 1], parts[|parts| - 1];
      NoExtractor(before, rows, k);
      assert Adds(rows, Merged(before), last);
      AtKeyAppend(rows(Merged(before)), rows(last), k);
    }
  }

  /** A key that is only ever written with one row, however often and by whichever
      batches, holds that row as soon as it was stored once. So leaving out a token
      that the extractor has cached does no harm while its metadata stay the same. */
  lemma {:induction false} OneRowIsSafe<K(!new), V(!new)>(rows: seq<Row<K, V>>, r: Row<K, V>)
    requires r in rows && forall i :: 0 <= i < |rows| && rows[i].key == r.key ==> rows[i] == r
    ensures At(UpsertAll(map[], rows), r.key) == Some(Cell(r.cols, r.extra)) == At(InsertAll(map[], rows), r.key)
  {
    var before, last := rows[..|rows| - 1], rows[|rows| - 1];
    if r in before {
      OneRowIsSafe(before, r);
    } else {
      assert last == r;
      KeyAbsent(before, r.key);
    }
  }

  lemma {:induction false} KeyAbsent<K(!new), V(!new)>(rows: seq<Row<K, V>>, k: K)
    requires forall i :: 0 <= i < |rows| ==> rows[i].key != k
    ensures k !in UpsertAll(map[], rows) && k !in InsertAll(map[], rows)
  {
    if rows != [] {
      KeyAbsent(rows[..|rows| - 1], k);
    }
  }
}
