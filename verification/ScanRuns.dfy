/** Whole runs of the scanner: any sequence of batches, health flips, stale or
    emptied primaries, resets and restarts. */
module ScanRuns {
  import opened Outcomes
  import opened FallbackTracker
  import opened UpsertTables
  import opened Replay
  import opened BlockScanner

  datatype ScanEvent =
    | Tick(env: Env)
    | Health(healthy: bool)
    | ResetRows(writeFaults: WriteFaults)
    | PrimaryReverts(age: nat)
    | NewProcess

  ghost function After(cfg: Config, interval: SyncInterval, events: seq<ScanEvent>): Scan
    decreases |events|
  {
    if events == [] then INITIAL
    else
      var before := events[..|events| - 1];
      var s := After(cfg, interval, before);
      match events[|events| - 1]
      case Tick(env) => Batch(cfg, interval, s, env).0
      case Health(h) => s.(tracker := s.tracker.(primaryHealthy := h))
      case ResetRows(f) => s.(tracker := Reset(s.tracker, f).0)
      case PrimaryReverts(age) =>
        s.(tracker := s.tracker.(primary :=
          if age < |before| then After(cfg, interval, before[..age]).tracker.primary else None))
      case NewProcess => s.(tracker := s.tracker.(updateCount := 0, primaryHealthy := true))
  }

  ghost function Ranges(commits: seq<Commit>): seq<Range> {
    if commits == [] then [] else Ranges(commits[..|commits| - 1]) + [commits[|commits| - 1].range]
  }

  ghost function TablesOf(commits: seq<Commit>): Tables {
    if commits == [] then EMPTY_TABLES
    else Stored(TablesOf(commits[..|commits| - 1]), commits[|commits| - 1].dex)
  }

  // ----- The invariant -----

  /** A checkpoint is absent or ends a stored prefix. */
  ghost predicate Sound(lo: int, top: int, row: Option<Progress>) {
    Held(row).lastBlock == 0 || lo <= Held(row).lastBlock <= top
  }

  ghost predicate SoundRows(lo: int, top: int, t: Tracker) {
    Sound(lo, top, t.primary) && Sound(lo, top, t.secondary)
  }

  ghost predicate Placed(lo: int, requests: seq<Range>, commits: seq<Commit>) {
    && Grows(lo, requests)
    && Grows(lo, Ranges(commits))
    && Top(lo, Ranges(commits)) <= Top(lo, requests)
  }

  /** What a stored batch fetched is stored with it. */
  ghost predicate Kept(s: Scan) {
    && s.tables == TablesOf(s.commits)
    && forall i :: 0 <= i < |s.commits| ==>
         AsSet(s.commits[i].blocks) <= s.blockRows && AsSet(s.commits[i].blocks) <= s.transactionRows
  }

  ghost function Reach(lo: int, s: Scan): int {
    Top(lo, Ranges(s.commits))
  }

  ghost predicate Inv(lo: int, s: Scan) {
    Placed(lo, s.requests, s.commits) && SoundRows(lo, Reach(lo, s), s.tracker) && Kept(s)
  }

  lemma CommitGrows(lo: int, commits: seq<Commit>, c: Commit)
    requires Grows(lo, Ranges(commits))
    requires lo <= c.range.first <= Top(lo, Ranges(commits)) + 1 && c.range.first <= c.range.last
    ensures Grows(lo, Ranges(commits + [c]))
    ensures Top(lo, Ranges(commits + [c])) == if c.range.last > Top(lo, Ranges(commits)) then c.range.last else Top(lo, Ranges(commits))
    ensures TablesOf(commits + [c]) == Stored(TablesOf(commits), c.dex)
  {
    assert (commits + [c])[..|commits|] == commits;
    var before, after := Ranges(commits), Ranges(commits + [c]);
    assert after == before + [c.range];
    assert after[..|after| - 1] == before;
  }

  lemma RequestGrows(lo: int, requests: seq<Range>, r: Range)
    requires Grows(lo, requests) && lo <= r.first <= Top(lo, requests) + 1 && r.first <= r.last
    ensures Grows(lo, requests + [r])
    ensures Top(lo, requests + [r]) == if r.last > Top(lo, requests) then r.last else Top(lo, requests)
  {
    assert (requests + [r])[..|requests|] == requests;
  }

  lemma StoredEmpty(t: Tables)
    ensures Stored(t, NO_DATA) == t
  {
  }

  lemma UpdateSound(lo: int, top: int, t: Tracker, interval: SyncInterval, p: Progress, f: WriteFaults)
    requires SoundRows(lo, top, t) && lo <= p.lastBlock <= top
    ensures SoundRows(lo, top, Update(t, interval, p, f).0)
  {
  }

  lemma TrackerInv(lo: int, s: Scan, t: Tracker)
    requires Inv(lo, s) && SoundRows(lo, Reach(lo, s), t)
    ensures Inv(lo, s.(tracker := t))
  {
  }

  lemma RequestInv(lo: int, s: Scan, range: Range)
    requires Inv(lo, s) && lo <= range.first <= Reach(lo, s) + 1 && range.first <= range.last
    ensures Inv(lo, s.(requests := s.requests + [range]))
    ensures Top(lo, s.requests + [range]) >= range.last
  {
    RequestGrows(lo, s.requests, range);
  }

  lemma CommitInv(lo: int, s: Scan, c: Commit)
    requires Inv(lo, s) && AsSet(c.blocks) <= s.blockRows && AsSet(c.blocks) <= s.transactionRows
    requires lo <= c.range.first <= Reach(lo, s) + 1 && c.range.first <= c.range.last <= Top(lo, s.requests)
    ensures var s' := s.(tables := Stored(s.tables, c.dex), commits := s.commits + [c]);
      Inv(lo, s') && Reach(lo, s') >= Reach(lo, s) && Reach(lo, s') >= c.range.last
  {
    CommitGrows(lo, s.commits, c);
  }

  lemma MoreRows(lo: int, s: Scan, blockRows: set<Block>, transactionRows: set<Block>)
    requires Inv(lo, s) && s.blockRows <= blockRows && s.transactionRows <= transactionRows
    ensures Inv(lo, s.(blockRows := blockRows, transactionRows := transactionRows))
  {
  }

  /** A state in which the blocks of a batch are stored may take the batch's DEX rows. */
  lemma StoreDexInv(lo: int, s: Scan, c: Commit, w: Write)
    requires Inv(lo, s) && AsSet(c.blocks) <= s.blockRows && AsSet(c.blocks) <= s.transactionRows
    requires lo <= c.range.first <= Reach(lo, s) + 1 && c.range.first <= c.range.last <= Top(lo, s.requests)
    ensures var (s', ok) := StoreDex(s, c, w);
      && Inv(lo, s') && s'.tracker == s.tracker
      && Reach(lo, s') >= Reach(lo, s)
      && (ok ==> Reach(lo, s') >= c.range.last)
  {
    CommitInv(lo, s, c);
    if c.dex.Total() == 0 {
      assert c.dex == NO_DATA;
      StoredEmpty(s.tables);
    }
  }

  lemma StoreRestInv(lo: int, s: Scan, c: Commit, env: Env)
    requires Inv(lo, s) && AsSet(c.blocks) <= s.blockRows
    requires lo <= c.range.first <= Reach(lo, s) + 1 && c.range.first <= c.range.last <= Top(lo, s.requests)
    ensures var (s', ok) := StoreRest(s, c, env);
      && Inv(lo, s') && s'.tracker == s.tracker
      && Reach(lo, s') >= Reach(lo, s)
      && (ok ==> Reach(lo, s') >= c.range.last)
  {
    var sends := TransactionCount(c.blocks) > 0;
    if !sends || env.storeTransactions.Applied() {
      var s' := s.(transactionRows := s.transactionRows + AsSet(c.blocks));
      MoreRows(lo, s, s'.blockRows, s'.transactionRows);
      if !sends || env.storeTransactions.Acked? {
        StoreDexInv(lo, s', c, env.storeDex);
      }
    }
  }

  lemma StoreBatchInv(lo: int, s: Scan, c: Commit, env: Env)
    requires Inv(lo, s)
    requires lo <= c.range.first <= Reach(lo, s) + 1 && c.range.first <= c.range.last <= Top(lo, s.requests)
    ensures var (s', ok) := StoreBatch(s, c, env);
      && Inv(lo, s') && s'.tracker == s.tracker
      && Reach(lo, s') >= Reach(lo, s)
      && (ok ==> Reach(lo, s') >= c.range.last)
  {
    if env.storeBlocks.Applied() {
      var s' := s.(blockRows := s.blockRows + AsSet(c.blocks));
      MoreRows(lo, s, s'.blockRows, s'.transactionRows);
      if env.storeBlocks.Acked? {
        StoreRestInv(lo, s', c, env);
      }
    }
  }

  /** Storing a requested range and then its checkpoint. */
  lemma ProcessRangeInv(lo: int, s: Scan, p: Progress, c: Commit, interval: SyncInterval, env: Env)
    requires Inv(lo, s)
    requires lo <= c.range.first <= Reach(lo, s) + 1 && c.range.first <= c.range.last <= Top(lo, s.requests)
    ensures var s' := ProcessRange(interval, s, p, c, env).0;
      Inv(lo, s') && Reach(lo, s') >= Reach(lo, s)
  {
    StoreBatchInv(lo, s, c, env);
    var (s', stored) := StoreBatch(s, c, env);
    if stored {
      var next := Checkpoint(p, c.range, c.blocks, c.dex);
      UpdateSound(lo, Reach(lo, s'), s'.tracker, interval, next, env.saveFaults);
      TrackerInv(lo, s', Update(s'.tracker, interval, next, env.saveFaults).0);
    }
  }

  /** A range chosen after a sound checkpoint starts inside or right after what is
      stored. */
  lemma RangeInv(cfg: Config, s: Scan, p: Progress, latest: int)
    requires StartBlock(cfg) > 0 && Inv(StartBlock(cfg), s) && Sound(StartBlock(cfg), Reach(StartBlock(cfg), s), Some(p))
    ensures var lo, range := StartBlock(cfg), BatchRange(cfg, p, latest);
      var s' := s.(requests := s.requests + [range]);
      && lo <= range.first <= Reach(lo, s) + 1
      && (range.first < range.last ==> Inv(lo, s') && Reach(lo, s') == Reach(lo, s) && range.last <= Top(lo, s'.requests))
  {
    var range := BatchRange(cfg, p, latest);
    if range.first < range.last {
      RequestInv(StartBlock(cfg), s, range);
    }
  }

  lemma BatchAfterInv(cfg: Config, interval: SyncInterval, s: Scan, p: Progress, env: Env)
    requires StartBlock(cfg) > 0 && Inv(StartBlock(cfg), s) && Sound(StartBlock(cfg), Reach(StartBlock(cfg), s), Some(p))
    ensures var lo, s' := StartBlock(cfg), BatchAfter(cfg, interval, s, p, env).0;
      Inv(lo, s') && Reach(lo, s') >= Reach(lo, s)
  {
    if env.latest.Ok? {
      RangeInv(cfg, s, p, env.latest.value);
      var range := BatchRange(cfg, p, env.latest.value);
      if range.first < range.last && env.blocks.Ok? && env.dex.Ok? {
        var c := Commit(range, env.blocks.value, Merged(env.dex.value));
        ProcessRangeInv(StartBlock(cfg), s.(requests := s.requests + [range]), p, c, interval, env);
      }
    }
  }

  lemma BatchInv(cfg: Config, interval: SyncInterval, s: Scan, env: Env)
    requires StartBlock(cfg) > 0 && Inv(StartBlock(cfg), s)
    ensures var lo, s' := StartBlock(cfg), Batch(cfg, interval, s, env).0;
      Inv(lo, s') && Reach(lo, s') >= Reach(lo, s)
  {
    var (tracker, answer) := Get(s.tracker, env.readFaults);
    TrackerInv(StartBlock(cfg), s, tracker);
    BatchAfterInv(cfg, interval, s.(tracker := tracker), if answer.Ok? then answer.value else DEFAULT_PROGRESS, env);
  }

  lemma {:induction false} RunInv(cfg: Config, interval: SyncInterval, events: seq<ScanEvent>)
    requires StartBlock(cfg) > 0
    ensures Inv(StartBlock(cfg), After(cfg, interval, events))
    decreases |events|, 0
  {
    if events != [] {
      var before, e := events[..|events| - 1], events[|events| - 1];
      var lo, s := StartBlock(cfg), After(cfg, interval, before);
      RunInv(cfg, interval, before);
      match e {
        case Tick(env) =>
          BatchInv(cfg, interval, s, env);
        case Health(h) =>
          TrackerInv(lo, s, s.tracker.(primaryHealthy := h));
        case ResetRows(f) =>
          TrackerInv(lo, s, Reset(s.tracker, f).0);
        case PrimaryReverts(age) =>
          if age < |before| {
            RunInv(cfg, interval, before[..age]);
            ReachGrows(cfg, interval, before, age);
            TrackerInv(lo, s, s.tracker.(primary := After(cfg, interval, before[..age]).tracker.primary));
          } else {
            TrackerInv(lo, s, s.tracker.(primary := None));
          }
        case NewProcess =>
          TrackerInv(lo, s, s.tracker.(updateCount := 0, primaryHealthy := true));
      }
    }
  }

  lemma {:induction false} ReachGrows(cfg: Config, interval: SyncInterval, events: seq<ScanEvent>, age: nat)
    requires StartBlock(cfg) > 0 && age <= |events|
    ensures Reach(StartBlock(cfg), After(cfg, interval, events[..age])) <= Reach(StartBlock(cfg), After(cfg, interval, events))
    decreases |events|, 1
  {
    if age == |events| {
      assert events[..age] == events;
    } else {
      var before, e := events[..|events| - 1], events[|events| - 1];
      assert events[..age] == before[..age];
      ReachGrows(cfg, interval, before, age);
      RunInv(cfg, interval, before);
      if e.Tick? {
        BatchInv(cfg, interval, After(cfg, interval, before), e.env);
      }
    }
  }

  // ----- Coverage -----

  ghost predicate Covers(commits: seq<Commit>, n: int) {
    exists i :: 0 <= i < |commits| && commits[i].range.first <= n <= commits[i].range.last
  }

  lemma {:induction false} CoversExpand(commits: seq<Commit>, n: int)
    ensures Covers(commits, n) <==> n in Expand(Ranges(commits))
  {
    if commits != [] {
      var before, c := commits[..|commits| - 1], commits[|commits| - 1];
      CoversExpand(before, n);
      var ranges := Ranges(commits);
      assert ranges == Ranges(before) + [c.range];
      assert ranges[..|ranges| - 1] == Ranges(before);
      InConcat(Expand(Ranges(before)), Interval(c.range.first, c.range.last), n);
      InInterval(c.range.first, c.range.last, n);
      if Covers(before, n) {
        var i :| 0 <= i < |before| && before[i].range.first <= n <= before[i].range.last;
        assert commits[i] == before[i];
      }
      if Covers(commits, n) {
        var i :| 0 <= i < |commits| && commits[i].range.first <= n <= commits[i].range.last;
        assert i < |before| ==> before[i] == commits[i];
      }
    }
  }

  /** With a configured start block, whatever fails: the requested numbers are an
      interval from the start block; every block up to a checkpoint either store
      holds lies in a stored batch, whose fetched blocks and transactions are
      stored too; and the DEX tables hold exactly the stored batches. */
  lemma Coverage(cfg: Config, interval: SyncInterval, events: seq<ScanEvent>)
    requires StartBlock(cfg) > 0
    ensures var lo, s := StartBlock(cfg), After(cfg, interval, events);
      && (forall n :: n in Expand(s.requests) <==> lo <= n <= Top(lo, s.requests))
      && (forall n :: lo <= n <= Held(s.tracker.primary).lastBlock ==> Covers(s.commits, n))
      && (forall n :: lo <= n <= Held(s.tracker.secondary).lastBlock ==> Covers(s.commits, n))
      && (forall i :: 0 <= i < |s.commits| ==>
            AsSet(s.commits[i].blocks) <= s.blockRows && AsSet(s.commits[i].blocks) <= s.transactionRows)
      && s.tables == TablesOf(s.commits)
  {
    var lo, s := StartBlock(cfg), After(cfg, interval, events);
    RunInv(cfg, interval, events);
    GrowingLog(lo, s.requests);
    GrowingLog(lo, Ranges(s.commits));
    forall n | lo <= n <= Top(lo, Ranges(s.commits)) ensures Covers(s.commits, n) {
      CoversExpand(s.commits, n);
    }
  }

  /** The block range of any further batch starts inside or right after what is
      stored. */
  lemma NoGap(cfg: Config, interval: SyncInterval, events: seq<ScanEvent>, f: ReadFaults, latest: int)
    requires StartBlock(cfg) > 0
    ensures var lo, s := StartBlock(cfg), After(cfg, interval, events);
      var answer := Get(s.tracker, f).1;
      var first := BatchRange(cfg, if answer.Ok? then answer.value else DEFAULT_PROGRESS, latest).first;
      lo <= first && forall n :: lo <= n < first ==> Covers(s.commits, n)
  {
    RunInv(cfg, interval, events);
    Coverage(cfg, interval, events);
  }

  /** Without a configured start block an absent checkpoint starts a hundred
      blocks below the tip: the requested numbers stay an interval exactly when
      the tip is at most a hundred and one blocks above the last request. */
  lemma UnconfiguredStartGap(cfg: Config, lo: int, requests: seq<Range>, latest: int)
    requires StartBlock(cfg) == 0 && BatchSize(cfg) > 0 && Grows(lo, requests) && lo <= latest - 100
    ensures var r := BatchRange(cfg, DEFAULT_PROGRESS, latest);
      (forall n :: lo <= n <= r.last ==> n in Expand(requests + [r])) <==> latest - 100 <= Top(lo, requests) + 1
  {
    var r := BatchRange(cfg, DEFAULT_PROGRESS, latest);
    var top := Top(lo, requests);
    assert (requests + [r])[..|requests|] == requests;
    GrowingLog(lo, requests);
    forall n ensures n in Expand(requests + [r]) <==> lo <= n <= top || r.first <= n <= r.last {
      InConcat(Expand(requests), Interval(r.first, r.last), n);
      InInterval(r.first, r.last, n);
    }
    if latest - 100 > top + 1 {
      assert lo <= top + 1 <= r.last && top + 1 !in Expand(requests + [r]);
    }
  }

  // ----- Runs without failing stores -----

  /** The primary answers and acknowledges, and the DEX write does not lose its
      acknowledgement. Node, extractors and the other writes may still fail. */
  ghost predicate Quiet(env: Env) {
    env.readFaults.primaryOk && env.saveFaults.primary.Acked? && !env.storeDex.AppliedUnacked?
  }

  /** The transactions and DEX rows of the stored batches. */
  ghost function Totals(commits: seq<Commit>): (int, int) {
    if commits == [] then (0, 0)
    else
      var (transactions, rows) := Totals(commits[..|commits| - 1]);
      var c := commits[|commits| - 1];
      (transactions + TransactionCount(c.blocks),
       rows + |c.dex.pools| + |c.dex.tokens| + |c.dex.transactions| + |c.dex.liquidities| + |c.dex.reserves|)
  }

  ghost function LastStored(lo: int, p: Progress): int {
    if p.lastBlock == 0 then lo - 1 else p.lastBlock
  }

  /** The checkpoint says exactly what is stored. */
  ghost predicate Exact(lo: int, p: Progress, commits: seq<Commit>) {
    && LastStored(lo, p) >= lo - 1
    && Expand(Ranges(commits)) == Interval(lo, LastStored(lo, p))
    && Totals(commits) == (p.totalTransactions, p.totalEvents)
  }

  lemma ExactCommit(lo: int, p: Progress, commits: seq<Commit>, c: Commit)
    requires lo > 0 && Exact(lo, p, commits) && c.range.first == LastStored(lo, p) + 1 <= c.range.last
    ensures Exact(lo, Checkpoint(p, c.range, c.blocks, c.dex), commits + [c])
  {
    assert (commits + [c])[..|commits|] == commits;
    assert (Ranges(commits) + [c.range])[..|Ranges(commits)|] == Ranges(commits);
    Concat(lo, c.range.first, c.range.last);
  }

  lemma QuietStore(s: Scan, c: Commit, env: Env)
    requires !env.storeDex.AppliedUnacked?
    ensures var (s', stored) := StoreBatch(s, c, env);
      s'.tracker == s.tracker && s'.commits == if stored then s.commits + [c] else s.commits
  {
  }

  /** A batch right after the checkpoint is stored and checkpointed, or neither. */
  ghost predicate AllOrNothing(lo: int, s: Scan, s': Scan) {
    var p, p' := Held(s.tracker.primary), Held(s'.tracker.primary);
    && s'.tracker.primaryHealthy
    && (|| (s'.commits == s.commits && p' == p)
        || (s'.commits != [] && var c := s'.commits[|s'.commits| - 1];
            && s'.commits == s.commits + [c] && p' == Checkpoint(p, c.range, c.blocks, c.dex)
            && c.range.first == LastStored(lo, p) + 1 <= c.range.last))
  }

  lemma QuietRange(lo: int, interval: SyncInterval, s: Scan, c: Commit, env: Env)
    requires s.tracker.primaryHealthy && Quiet(env)
    requires c.range.first == LastStored(lo, Held(s.tracker.primary)) + 1 <= c.range.last
    ensures AllOrNothing(lo, s, ProcessRange(interval, s, Held(s.tracker.primary), c, env).0)
  {
    QuietStore(s, c, env);
    assert (s.commits + [c])[|s.commits|] == c;
  }

  lemma QuietBatch(cfg: Config, interval: SyncInterval, s: Scan, env: Env)
    requires StartBlock(cfg) > 0 && s.tracker.primaryHealthy && Quiet(env)
    ensures AllOrNothing(StartBlock(cfg), s, BatchAfter(cfg, interval, s, Held(s.tracker.primary), env).0)
  {
    if env.latest.Ok? && env.blocks.Ok? && env.dex.Ok? {
      var range := BatchRange(cfg, Held(s.tracker.primary), env.latest.value);
      if range.first < range.last {
        var c := Commit(range, env.blocks.value, Merged(env.dex.value));
        QuietRange(StartBlock(cfg), interval, s.(requests := s.requests + [range]), c, env);
      }
    }
  }

  lemma ExactStep(lo: int, s: Scan, s': Scan)
    requires lo > 0 && Exact(lo, Held(s.tracker.primary), s.commits) && AllOrNothing(lo, s, s')
    ensures Exact(lo, Held(s'.tracker.primary), s'.commits)
  {
    if s'.commits != s.commits {
      ExactCommit(lo, Held(s.tracker.primary), s.commits, s'.commits[|s'.commits| - 1]);
    }
  }

  /** While the stores keep answering, no block is stored twice: the batches stored
      are the blocks from the start block to the checkpoint, each once and in
      order, and the checkpoint's totals count exactly what they held. */
  lemma {:induction false} ExactlyOnce(cfg: Config, interval: SyncInterval, events: seq<ScanEvent>)
    requires StartBlock(cfg) > 0
    requires forall i :: 0 <= i < |events| ==> events[i].Tick? && Quiet(events[i].env)
    ensures var s := After(cfg, interval, events);
      s.tracker.primaryHealthy && Exact(StartBlock(cfg), Held(s.tracker.primary), s.commits)
    decreases |events|
  {
    if events == [] {
      assert Interval(StartBlock(cfg), StartBlock(cfg) - 1) == [];
    } else {
      var before, e := events[..|events| - 1], events[|events| - 1];
      ExactlyOnce(cfg, interval, before);
      assert e.Tick? && Quiet(e.env);
      var s := After(cfg, interval, before);
      QuietBatch(cfg, interval, s, e.env);
      ExactStep(StartBlock(cfg), s, After(cfg, interval, events));
    }
  }
}
