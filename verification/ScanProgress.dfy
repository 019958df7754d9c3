/** How far the scanner gets when no call fails: with a node and extractors that
    answer the same for the same blocks, and a tip that stands still. */
module ScanProgress {
  import opened Outcomes
  import opened FallbackTracker
  import opened UpsertTables
  import opened Replay
  import opened BlockScanner
  import opened ScanRuns
  import opened Protocols
  import opened VirtualReserves
  import Words

  /** What the node answers for a range, and what the extractors make of it. */
  datatype Chain = Chain(latest: int, blocks: Range -> Result<seq<Block>>, dex: Range -> Result<seq<DexData>>)

  /** A batch in which both progress stores and the database acknowledge every call. */
  function Serve(w: Chain, range: Range): Env {
    Env(ReadFaults(true, true), Ok(w.latest), w.blocks(range), w.dex(range), Acked, Acked, Acked, WriteFaults(Acked, Acked))
  }

  ghost function Next(cfg: Config, s: Scan, latest: int): Range {
    BatchRange(cfg, Held(s.tracker.primary), latest)
  }

  /** Runs that grow by one such batch at a time. */
  ghost predicate NextServed(cfg: Config, interval: SyncInterval, w: Chain, runs: nat -> seq<ScanEvent>, n: nat) {
    runs(n + 1) == runs(n) + [Tick(Serve(w, Next(cfg, After(cfg, interval, runs(n)), w.latest)))]
  }

  ghost predicate Served(cfg: Config, interval: SyncInterval, w: Chain, runs: nat -> seq<ScanEvent>) {
    forall n: nat :: NextServed(cfg, interval, w, runs, n)
  }

  /** Any run can be continued so. */
  ghost function Continued(cfg: Config, interval: SyncInterval, w: Chain, events: seq<ScanEvent>, n: nat): seq<ScanEvent> {
    if n == 0 then events
    else
      var before := Continued(cfg, interval, w, events, n - 1);
      before + [Tick(Serve(w, Next(cfg, After(cfg, interval, before), w.latest)))]
  }

  lemma ContinuedIsServed(cfg: Config, interval: SyncInterval, w: Chain, events: seq<ScanEvent>)
    ensures var runs := (n: nat) => Continued(cfg, interval, w, events, n);
      runs(0) == events && Served(cfg, interval, w, runs)
  {
    var runs := (n: nat) => Continued(cfg, interval, w, events, n);
    forall n: nat ensures NextServed(cfg, interval, w, runs, n) {
    }
  }

  /** At most one block is left. */
  predicate CaughtUp(cfg: Config, p: Progress, latest: int) {
    BatchRange(cfg, p, latest).first >= latest
  }

  /** The range is fetched, some block of it comes, and its rows can be stored. */
  ghost predicate Good(w: Chain, range: Range) {
    && w.blocks(range).Ok? && w.blocks(range).value != []
    && w.dex(range).Ok? && Storable(Merged(w.dex(range).value))
  }

  /** The next batch takes the checkpoint on. */
  ghost predicate Moves(cfg: Config, w: Chain, p: Progress) {
    var range := BatchRange(cfg, p, w.latest);
    range.first < range.last && Good(w, range)
  }

  lemma ServedStore(w: Chain, s: Scan, range: Range)
    requires Good(w, range)
    ensures var (s', ok) := StoreBatch(s, Commit(range, w.blocks(range).value, Merged(w.dex(range).value)), Serve(w, range));
      ok && s'.tracker == s.tracker
  {
  }

  lemma RefusedStore(w: Chain, s: Scan, range: Range)
    requires w.blocks(range).Ok? && w.dex(range).Ok? && !Storable(Merged(w.dex(range).value))
    ensures var (s', ok) := StoreBatch(s, Commit(range, w.blocks(range).value, Merged(w.dex(range).value)), Serve(w, range));
      !ok && s'.tracker == s.tracker && s'.commits == s.commits && s'.tables == s.tables
  {
  }

  /** A served batch saves the end of its range exactly when it moves; otherwise it
      changes neither checkpoint, nor what is committed, nor a table. */
  ghost predicate Ticked(cfg: Config, w: Chain, s: Scan, s': Scan) {
    var p, range := Held(s.tracker.primary), Next(cfg, s, w.latest);
    && s'.tracker.primaryHealthy
    && if Moves(cfg, w, p) then Held(s'.tracker.primary).lastBlock == range.last
       else s'.tracker == s.tracker && s'.commits == s.commits && s'.tables == s.tables
  }

  lemma TickStep(cfg: Config, interval: SyncInterval, w: Chain, s: Scan)
    requires s.tracker.primaryHealthy
    ensures Ticked(cfg, w, s, Batch(cfg, interval, s, Serve(w, Next(cfg, s, w.latest))).0)
  {
    var p, range := Held(s.tracker.primary), Next(cfg, s, w.latest);
    var s1 := s.(requests := s.requests + [range]);
    assert Get(s.tracker, ReadFaults(true, true)) == (s.tracker, Ok(p));
    if range.first < range.last && w.blocks(range).Ok? && w.blocks(range).value != [] && w.dex(range).Ok? {
      if Good(w, range) {
        ServedStore(w, s1, range);
      } else {
        RefusedStore(w, s1, range);
      }
    }
  }

  lemma RunTicks(cfg: Config, interval: SyncInterval, w: Chain, before: seq<ScanEvent>, run: seq<ScanEvent>)
    requires run == before + [Tick(Serve(w, Next(cfg, After(cfg, interval, before), w.latest)))]
    requires After(cfg, interval, before).tracker.primaryHealthy
    ensures Ticked(cfg, w, After(cfg, interval, before), After(cfg, interval, run))
  {
    assert run[..|before|] == before;
    TickStep(cfg, interval, w, After(cfg, interval, before));
  }

  /** The scans along such runs. */
  ghost function ScansOf(cfg: Config, interval: SyncInterval, runs: nat -> seq<ScanEvent>): nat -> Scan {
    (n: nat) => After(cfg, interval, runs(n))
  }

  ghost predicate TickedAt(cfg: Config, w: Chain, scans: nat -> Scan, n: nat) {
    scans(n).tracker.primaryHealthy ==> Ticked(cfg, w, scans(n), scans(n + 1))
  }

  ghost predicate AllTicked(cfg: Config, w: Chain, scans: nat -> Scan) {
    scans(0).tracker.primaryHealthy && forall n: nat :: TickedAt(cfg, w, scans, n)
  }

  lemma ServedTicks(cfg: Config, interval: SyncInterval, w: Chain, runs: nat -> seq<ScanEvent>)
    requires Served(cfg, interval, w, runs) && After(cfg, interval, runs(0)).tracker.primaryHealthy
    ensures AllTicked(cfg, w, ScansOf(cfg, interval, runs))
  {
    var scans := ScansOf(cfg, interval, runs);
    forall n: nat ensures TickedAt(cfg, w, scans, n) {
      assert NextServed(cfg, interval, w, runs, n);
      if scans(n).tracker.primaryHealthy {
        RunTicks(cfg, interval, w, runs(n), runs(n + 1));
      }
    }
  }

  lemma {:induction false} StaysHealthy(cfg: Config, w: Chain, scans: nat -> Scan, n: nat)
    requires AllTicked(cfg, w, scans)
    ensures scans(n).tracker.primaryHealthy
  {
    if n > 0 {
      StaysHealthy(cfg, w, scans, n - 1);
      assert TickedAt(cfg, w, scans, n - 1);
    }
  }

  // ----- The sequence of checkpoints -----

  /** The next checkpoint ends the next range, or is the last one again. */
  ghost predicate StepAt(cfg: Config, w: Chain, p: nat -> Progress, n: nat) {
    if Moves(cfg, w, p(n)) then p(n + 1).lastBlock == BatchRange(cfg, p(n), w.latest).last else p(n + 1) == p(n)
  }

  ghost predicate Checkpoints(cfg: Config, w: Chain, p: nat -> Progress) {
    forall n: nat :: StepAt(cfg, w, p, n)
  }

  ghost function CheckpointsOf(scans: nat -> Scan): nat -> Progress {
    (n: nat) => Held(scans(n).tracker.primary)
  }

  lemma TheyAreCheckpoints(cfg: Config, w: Chain, scans: nat -> Scan)
    requires AllTicked(cfg, w, scans)
    ensures Checkpoints(cfg, w, CheckpointsOf(scans))
  {
    forall n: nat ensures StepAt(cfg, w, CheckpointsOf(scans), n) {
      StaysHealthy(cfg, w, scans, n);
      assert TickedAt(cfg, w, scans, n);
    }
  }

  /** A scanner whose next batch does not move rests for ever. */
  lemma {:induction false} Rests(cfg: Config, w: Chain, p: nat -> Progress, n: nat, more: nat)
    requires Checkpoints(cfg, w, p) && !Moves(cfg, w, p(n))
    ensures p(n + more) == p(n)
  {
    if more > 0 {
      Rests(cfg, w, p, n, more - 1);
      assert StepAt(cfg, w, p, n + more - 1);
    }
  }

  /** While every batch moves, each brings the scanner at least one block on. */
  lemma {:induction false} Climbs(cfg: Config, w: Chain, p: nat -> Progress, n: nat)
    requires Checkpoints(cfg, w, p) && BatchRange(cfg, p(0), w.latest).first > 0
    requires forall m: nat :: m < n ==> Moves(cfg, w, p(m))
    ensures BatchRange(cfg, p(n), w.latest).first >= BatchRange(cfg, p(0), w.latest).first + n
  {
    if n > 0 {
      Climbs(cfg, w, p, n - 1);
      assert StepAt(cfg, w, p, n - 1);
    }
  }

  /** The ranges from a first number on, as the batch size and the tip cut them. */
  function RangeAt(cfg: Config, first: int, latest: int, k: nat): Range {
    var start := first + k * (BatchSize(cfg) + 1);
    Range(start, if start + BatchSize(cfg) > latest then latest else start + BatchSize(cfg))
  }

  ghost predicate GoodAt(cfg: Config, w: Chain, first: int, k: nat) {
    RangeAt(cfg, first, w.latest, k).first < w.latest ==> Good(w, RangeAt(cfg, first, w.latest, k))
  }

  /** Every range from the first number to the tip is good. */
  ghost predicate GoodToTheTip(cfg: Config, w: Chain, first: int) {
    forall k: nat :: GoodAt(cfg, w, first, k)
  }

  lemma NextStart(cfg: Config, first: int, latest: int, k: nat)
    ensures RangeAt(cfg, first, latest, k + 1).first == RangeAt(cfg, first, latest, k).first + BatchSize(cfg) + 1
    ensures RangeAt(cfg, first, latest, 0).first == first
  {
    var size := BatchSize(cfg) + 1;
    assert (k + 1) * size == k * size + size;
  }

  /** While every batch moves, the ranges are these. */
  lemma {:induction false} OnTrack(cfg: Config, w: Chain, p: nat -> Progress, k: nat)
    requires Checkpoints(cfg, w, p) && BatchRange(cfg, p(0), w.latest).first > 0 && BatchSize(cfg) > 0
    requires forall m: nat :: m < k ==> Moves(cfg, w, p(m))
    ensures var first := BatchRange(cfg, p(0), w.latest).first;
      && RangeAt(cfg, first, w.latest, k).first >= first
      && (|| BatchRange(cfg, p(k), w.latest) == RangeAt(cfg, first, w.latest, k)
          || (CaughtUp(cfg, p(k), w.latest) && RangeAt(cfg, first, w.latest, k).first >= w.latest))
  {
    var first := BatchRange(cfg, p(0), w.latest).first;
    if k > 0 {
      OnTrack(cfg, w, p, k - 1);
      NextStart(cfg, first, w.latest, k - 1);
      assert StepAt(cfg, w, p, k - 1);
    }
  }

  /** Some number of batches suffices. */
  ghost predicate CatchesUp(cfg: Config, w: Chain, p: nat -> Progress) {
    exists n: nat :: CaughtUp(cfg, p(n), w.latest)
  }

  lemma {:induction false} AllMove(cfg: Config, w: Chain, p: nat -> Progress, n: nat)
    requires Checkpoints(cfg, w, p) && BatchRange(cfg, p(0), w.latest).first > 0 && BatchSize(cfg) > 0
    requires GoodToTheTip(cfg, w, BatchRange(cfg, p(0), w.latest).first) && !CatchesUp(cfg, w, p)
    ensures forall m: nat :: m < n ==> Moves(cfg, w, p(m))
  {
    if n > 0 {
      AllMove(cfg, w, p, n - 1);
      OnTrack(cfg, w, p, n - 1);
      assert GoodAt(cfg, w, BatchRange(cfg, p(0), w.latest).first, n - 1);
      assert !CaughtUp(cfg, p(n - 1), w.latest);
    }
  }

  lemma GoodCatchesUp(cfg: Config, w: Chain, p: nat -> Progress)
    requires Checkpoints(cfg, w, p) && BatchRange(cfg, p(0), w.latest).first > 0
    requires BatchSize(cfg) > 0 && GoodToTheTip(cfg, w, BatchRange(cfg, p(0), w.latest).first)
    ensures CatchesUp(cfg, w, p)
  {
    if !CatchesUp(cfg, w, p) {
      assert !CaughtUp(cfg, p(0), w.latest);
      var n: nat := w.latest - BatchRange(cfg, p(0), w.latest).first;
      AllMove(cfg, w, p, n);
      Climbs(cfg, w, p, n);
      assert CaughtUp(cfg, p(n), w.latest);
    }
  }

  /** A place where the scanner neither moves nor has caught up is never passed. */
  lemma NeverPast(cfg: Config, w: Chain, p: nat -> Progress, m: nat)
    requires Checkpoints(cfg, w, p) && !CaughtUp(cfg, p(m), w.latest) && !Moves(cfg, w, p(m))
    ensures !CatchesUp(cfg, w, p)
  {
    forall n: nat ensures !CaughtUp(cfg, p(n), w.latest) {
      if n >= m {
        Rests(cfg, w, p, m, n - m);
      } else if CaughtUp(cfg, p(n), w.latest) {
        Rests(cfg, w, p, n, m - n);
      }
    }
  }

  /** A scanner that catches up moves through every range below the tip. */
  lemma {:induction false} MovesBelowTip(cfg: Config, w: Chain, p: nat -> Progress, k: nat)
    requires Checkpoints(cfg, w, p) && BatchRange(cfg, p(0), w.latest).first > 0 && BatchSize(cfg) > 0 && CatchesUp(cfg, w, p)
    requires RangeAt(cfg, BatchRange(cfg, p(0), w.latest).first, w.latest, k).first < w.latest
    ensures forall m: nat :: m <= k ==> Moves(cfg, w, p(m))
    ensures BatchRange(cfg, p(k), w.latest) == RangeAt(cfg, BatchRange(cfg, p(0), w.latest).first, w.latest, k)
  {
    if k > 0 {
      NextStart(cfg, BatchRange(cfg, p(0), w.latest).first, w.latest, k - 1);
      MovesBelowTip(cfg, w, p, k - 1);
    }
    OnTrack(cfg, w, p, k);
    if !Moves(cfg, w, p(k)) {
      NeverPast(cfg, w, p, k);
    }
  }

  /** After any run that left the primary trusted, the first start included: batches
      without a failing call bring the scanner to within one block of the tip exactly
      when the batch size is positive and every range from the first number to the tip,
      as the batch size cuts them, comes with blocks and with rows that can be stored. */
  lemma CatchesUpIff(cfg: Config, interval: SyncInterval, w: Chain, runs: nat -> seq<ScanEvent>)
    requires Served(cfg, interval, w, runs) && After(cfg, interval, runs(0)).tracker.primaryHealthy
    requires Next(cfg, After(cfg, interval, runs(0)), w.latest).first > 0
    ensures var first := Next(cfg, After(cfg, interval, runs(0)), w.latest).first;
      CatchesUp(cfg, w, CheckpointsOf(ScansOf(cfg, interval, runs)))
      <==> first >= w.latest || (BatchSize(cfg) > 0 && GoodToTheTip(cfg, w, first))
  {
    var scans := ScansOf(cfg, interval, runs);
    ServedTicks(cfg, interval, w, runs);
    TheyAreCheckpoints(cfg, w, scans);
    CatchesUpWhen(cfg, w, CheckpointsOf(scans));
  }

  lemma CatchesUpWhen(cfg: Config, w: Chain, p: nat -> Progress)
    requires Checkpoints(cfg, w, p) && BatchRange(cfg, p(0), w.latest).first > 0
    ensures var first := BatchRange(cfg, p(0), w.latest).first;
      CatchesUp(cfg, w, p) <==> first >= w.latest || (BatchSize(cfg) > 0 && GoodToTheTip(cfg, w, first))
  {
    var first := BatchRange(cfg, p(0), w.latest).first;
    if CaughtUp(cfg, p(0), w.latest) {
    } else if BatchSize(cfg) <= 0 {
      NeverPast(cfg, w, p, 0);
    } else if GoodToTheTip(cfg, w, first) {
      GoodCatchesUp(cfg, w, p);
    } else if CatchesUp(cfg, w, p) {
      var k: nat :| !GoodAt(cfg, w, first, k);
      MovesBelowTip(cfg, w, p, k);
    }
  }

  /** Where at most one block is left, or before the first range that comes without
      blocks or cannot be stored, the checkpoint stands still for ever. So a single
      remaining block is not scanned. */
  lemma RestsOneShort(cfg: Config, interval: SyncInterval, w: Chain, runs: nat -> seq<ScanEvent>, n: nat, more: nat)
    requires Served(cfg, interval, w, runs) && After(cfg, interval, runs(0)).tracker.primaryHealthy
    requires var p := CheckpointsOf(ScansOf(cfg, interval, runs))(n);
      CaughtUp(cfg, p, w.latest) || !Good(w, BatchRange(cfg, p, w.latest))
    ensures var p := CheckpointsOf(ScansOf(cfg, interval, runs)); p(n + more) == p(n)
  {
    var scans := ScansOf(cfg, interval, runs);
    ServedTicks(cfg, interval, w, runs);
    TheyAreCheckpoints(cfg, w, scans);
    Rests(cfg, w, CheckpointsOf(scans), n, more);
  }

  // ----- Two Sync logs in one block -----

  /** A chain on which one pair emits two Sync logs in one block of every range. */
  function TwoSyncs(pool: string, time: int, first: Reserves, second: Reserves): Chain {
    Chain(100, (r: Range) => Ok([Block(r.first, 1)]),
          (r: Range) => Ok([NO_DATA.(reserves := [ReserveRow(pool, time, V2, first), ReserveRow(pool, time, V2, second)])]))
  }

  lemma TwoSyncsNotGood(pool: string, time: int, first: Reserves, second: Reserves, range: Range)
    ensures !Good(TwoSyncs(pool, time, first, second), range)
  {
    TwoSnapshotsRefused(pool, time, V2, first, second);
    var d := NO_DATA.(reserves := [ReserveRow(pool, time, V2, first), ReserveRow(pool, time, V2, second)]);
    assert [d][..0] == [];
    assert Merged([d]) == d;
  }

  lemma {:induction false} StuckAtFirst(cfg: Config, w: Chain, scans: nat -> Scan, n: nat)
    requires AllTicked(cfg, w, scans) && forall range :: !Good(w, range)
    ensures scans(n).tracker == scans(0).tracker && scans(n).commits == scans(0).commits && scans(n).tables == scans(0).tables
  {
    if n > 0 {
      StuckAtFirst(cfg, w, scans, n - 1);
      StaysHealthy(cfg, w, scans, n - 1);
      assert TickedAt(cfg, w, scans, n - 1);
    }
  }

  /** No call fails, and the first batch is retried for ever: no checkpoint, no row. */
  lemma TwoSyncsStopTheScan(cfg: Config, interval: SyncInterval, pool: string, time: int, data1: seq<Words.Byte>, data2: seq<Words.Byte>,
                            runs: nat -> seq<ScanEvent>, n: nat)
    requires |data1| >= 64 && |data2| >= 64 && runs(0) == []
    requires Served(cfg, interval, TwoSyncs(pool, time, ParseSync(data1).value, ParseSync(data2).value), runs)
    ensures var s := After(cfg, interval, runs(n));
      s.tracker == INITIAL.tracker && s.commits == [] && s.tables == EMPTY_TABLES
  {
    var w, scans := TwoSyncs(pool, time, ParseSync(data1).value, ParseSync(data2).value), ScansOf(cfg, interval, runs);
    forall range ensures !Good(w, range) {
      TwoSyncsNotGood(pool, time, ParseSync(data1).value, ParseSync(data2).value, range);
    }
    ServedTicks(cfg, interval, w, runs);
    StuckAtFirst(cfg, w, scans, n);
  }
}
