/** Scanner and extractor in one run: what scanning a swap again does to its transaction
    row, whose key holds the direction, which depends on what the pool cache knows. */
module SwapRescan {
  import opened Outcomes
  import opened FallbackTracker
  import opened UpsertTables
  import opened BlockScanner
  import opened ScanRuns
  import opened UniswapSwaps
  import opened UniswapExtraction
  import PoolTokens
  import SwapSystem
  import Rescan

  // ----- Transaction rows -----

  function Text(d: Direction): string {
    match d
    case Buy => "buy"
    case Sell => "sell"
    case Swap => "swap"
  }

  function KeyOf(log: SwapLog, side: string): SwapKey {
    SwapKey(log.txHash, log.logIndex, side)
  }

  /** The columns outside the key are left open. */
  function TransactionRow(cols: SwapRow -> Columns, r: SwapRow): Row<SwapKey, Columns> {
    Row(KeyOf(r.log, Text(r.direction)), cols(r), None)
  }

  function TransactionRows(cols: SwapRow -> Columns, swaps: seq<SwapRow>): seq<Row<SwapKey, Columns>> {
    seq(|swaps|, i requires 0 <= i < |swaps| => TransactionRow(cols, swaps[i]))
  }

  /** What the extractor returns for a batch. */
  function Extract(cols: SwapRow -> Columns, rows: Rows): DexData {
    NO_DATA.(pools := SwapSystem.PoolRowsOf(rows.pools), transactions := TransactionRows(cols, rows.swaps))
  }

  /** One row for each pool seen and for each swap, in order: the pool with its tokens, the
      swap under its hash, the log's index. */
  lemma ExtractHolds(cols: SwapRow -> Columns, rows: Rows)
    ensures var d := Extract(cols, rows);
      && |d.pools| == |rows.pools| && |d.transactions| == |rows.swaps|
      && d.tokens == [] && d.liquidities == [] && d.reserves == []
      && (forall i :: 0 <= i < |d.pools| ==>
            && d.pools[i].key == rows.pools[i].pool && d.pools[i].cols.token0 == rows.pools[i].meta.token0
            && d.pools[i].cols.token1 == rows.pools[i].meta.token1)
      && forall i :: 0 <= i < |d.transactions| ==>
           && d.transactions[i].key.hash == rows.swaps[i].log.txHash && d.transactions[i].key.eventIndex == rows.swaps[i].log.logIndex
           && d.transactions[i].cols == cols(rows.swaps[i])
  {
  }

  // ----- Runs -----

  /** A batch in which the extractor sees these steps, before the other extractors;
      something else that happens to the scanner, where a batch has no place; or
      somebody teaching the pool cache. */
  datatype Round =
    | Fetch(env: Env, steps: seq<Step>, others: Result<seq<DexData>>)
    | Elsewhere(event: ScanEvent)
    | Learn(op: CacheOp)

  /** The pool cache, what happened to the scanner, and what was known of the pool of
      one swap each time the swap was stored. */
  datatype Joint = Joint(cache: Cache, events: seq<ScanEvent>, seen: seq<Option<PoolMeta>>)

  const FRESH := Joint(map[], [], [])

  /** The scanner, the extractor and the swap looked at. */
  datatype Setup = Setup(cfg: Config, interval: SyncInterval, ranks: Ranks, cols: SwapRow -> Columns, swap: SwapLog)

  ghost function ScanOf(u: Setup, j: Joint): Scan {
    After(u.cfg, u.interval, j.events)
  }

  /** What was known of the pool when the swap was scanned. */
  function SeenIn(ranks: Ranks, cache: Cache, steps: seq<Step>, swap: SwapLog): seq<Option<PoolMeta>> {
    if steps == [] then []
    else
      var before, step := steps[..|steps| - 1], steps[|steps| - 1];
      var seen := SeenIn(ranks, cache, before, swap);
      if step.SwapSeen? && step.log == swap then
        seen + [SwapSystem.KnownAt(Extracted(ranks, cache, before).cache, swap, step.redis)]
      else seen
  }

  function Answer(cols: SwapRow -> Columns, rows: Rows, others: Result<seq<DexData>>): Result<seq<DexData>> {
    if others.Ok? then Ok([Extract(cols, rows)] + others.value) else Err
  }

  /** The batch, with what the extractors answer. */
  function Event(u: Setup, j: Joint, r: Round): ScanEvent
    requires r.Fetch?
  {
    Tick(r.env.(dex := Answer(u.cols, Extracted(u.ranks, j.cache, r.steps).rows, r.others)))
  }

  ghost function AfterFetch(u: Setup, j: Joint, r: Round): Joint
    requires r.Fetch?
  {
    var next := Joint(Extracted(u.ranks, j.cache, r.steps).cache, j.events + [Event(u, j, r)], j.seen);
    if |ScanOf(u, next).commits| > |ScanOf(u, j).commits| then next.(seen := j.seen + SeenIn(u.ranks, j.cache, r.steps, u.swap)) else next
  }

  /** A new process starts with an empty cache. */
  ghost function JointStep(u: Setup, j: Joint, r: Round): Joint {
    match r
    case Fetch(_, _, _) => AfterFetch(u, j, r)
    case Elsewhere(event) =>
      if event.Tick? then j
      else j.(cache := if event.NewProcess? then map[] else j.cache, events := j.events + [event])
    case Learn(op) => j.(cache := CacheStep(j.cache, op).0)
  }

  ghost function RunRounds(u: Setup, rounds: seq<Round>): Joint {
    if rounds == [] then FRESH
    else JointStep(u, RunRounds(u, rounds[..|rounds| - 1]), rounds[|rounds| - 1])
  }

  // ----- What the code demands of its surroundings -----

  ghost predicate SameIdentity(a: SwapLog, b: SwapLog) {
    a.txHash == b.txHash && a.logIndex == b.logIndex
  }

  ghost predicate IdentifiedSteps(steps: seq<Step>, swap: SwapLog) {
    forall i :: 0 <= i < |steps| && steps[i].SwapSeen? && SameIdentity(steps[i].log, swap) ==> steps[i].log == swap
  }

  /** Transaction hash and log index identify the swap's log, and no other extractor
      makes a row for it. */
  ghost predicate Identifies(r: Round, swap: SwapLog) {
    r.Fetch? ==>
      && IdentifiedSteps(r.steps, swap)
      && (r.others.Ok? ==> forall i :: 0 <= i < |r.others.value| ==> NoRowOf(r.others.value[i].transactions, swap))
  }

  ghost predicate NoRowOf(rows: seq<Row<SwapKey, Columns>>, swap: SwapLog) {
    forall i :: 0 <= i < |rows| ==> !(rows[i].key.hash == swap.txHash && rows[i].key.eventIndex == swap.logIndex)
  }

  /** Whoever teaches the cache a pool's tokens tells the truth. */
  ghost predicate TrueRound(r: Round, truth: string -> PoolMeta) {
    match r
    case Fetch(_, steps, _) => forall i :: 0 <= i < |steps| ==> TrueStep(steps[i], truth)
    case Elsewhere(_) => true
    case Learn(op) => TrueOp(op, truth)
  }

  ghost predicate Fits(r: Round, swap: SwapLog, truth: string -> PoolMeta) {
    Identifies(r, swap) && TrueRound(r, truth)
  }

  ghost predicate AllFit(rounds: seq<Round>, swap: SwapLog, truth: string -> PoolMeta) {
    forall i :: 0 <= i < |rounds| ==> Fits(rounds[i], swap, truth)
  }

  // ----- The rows of one batch -----

  /** The side a swap is stored with when this is known of its pool. */
  function SideOf(ranks: Ranks, swap: SwapLog, meta: Option<PoolMeta>): string
    requires LegsOf(swap).Some?
  {
    Text(DirectionOf(ranks, LegsOf(swap).value, meta))
  }

  /** It was stored with this side. */
  ghost predicate StoredAs(ranks: Ranks, swap: SwapLog, seen: seq<Option<PoolMeta>>, side: string)
    requires LegsOf(swap).Some?
  {
    exists i :: 0 <= i < |seen| && SideOf(ranks, swap, seen[i]) == side
  }

  lemma StoredAsAppend(ranks: Ranks, swap: SwapLog, a: seq<Option<PoolMeta>>, b: seq<Option<PoolMeta>>, side: string)
    requires LegsOf(swap).Some?
    ensures StoredAs(ranks, swap, a + b, side) <==> StoredAs(ranks, swap, a, side) || StoredAs(ranks, swap, b, side)
  {
    var all := a + b;
    if StoredAs(ranks, swap, a, side) {
      var i :| 0 <= i < |a| && SideOf(ranks, swap, a[i]) == side;
      assert all[i] == a[i];
    }
    if StoredAs(ranks, swap, b, side) {
      var i :| 0 <= i < |b| && SideOf(ranks, swap, b[i]) == side;
      assert all[|a| + i] == b[i];
    }
  }

  lemma StoredAsOne(ranks: Ranks, swap: SwapLog, meta: Option<PoolMeta>, side: string)
    requires LegsOf(swap).Some?
    ensures StoredAs(ranks, swap, [meta], side) <==> SideOf(ranks, swap, meta) == side
  {
    assert [meta][0] == meta;
  }

  ghost predicate OfSwap(row: SwapRow, swap: SwapLog, side: string) {
    SameIdentity(row.log, swap) && Text(row.direction) == side
  }

  ghost predicate AnyOfSwap(swaps: seq<SwapRow>, swap: SwapLog, side: string) {
    exists i :: 0 <= i < |swaps| && OfSwap(swaps[i], swap, side)
  }

  lemma AnyOfSwapSnoc(swaps: seq<SwapRow>, row: SwapRow, swap: SwapLog, side: string)
    ensures AnyOfSwap(swaps + [row], swap, side) <==> AnyOfSwap(swaps, swap, side) || OfSwap(row, swap, side)
  {
    var more := swaps + [row];
    if AnyOfSwap(swaps, swap, side) {
      var i :| 0 <= i < |swaps| && OfSwap(swaps[i], swap, side);
      assert more[i] == swaps[i];
    }
    assert more[|swaps|] == row;
  }

  /** A step's row of the swap has the side of what is known then. */
  lemma StepRow(ranks: Ranks, x: Extraction, step: Step, swap: SwapLog, side: string)
    requires LegsOf(swap).Some? && (step.SwapSeen? && SameIdentity(step.log, swap) ==> step.log == swap)
    ensures AnyOfSwap(ExtractStep(ranks, x, step).rows.swaps, swap, side) <==>
      || AnyOfSwap(x.rows.swaps, swap, side)
      || (step.SwapSeen? && step.log == swap && SideOf(ranks, swap, SwapSystem.KnownAt(x.cache, swap, step.redis)) == side)
  {
    if step.SwapSeen? && LegsOf(step.log).Some? {
      var row := SwapRow(step.log, |x.rows.swaps|, DirectionOf(ranks, LegsOf(step.log).value, SwapSystem.KnownAt(x.cache, step.log, step.redis)));
      assert ExtractStep(ranks, x, step).rows.swaps == x.rows.swaps + [row];
      AnyOfSwapSnoc(x.rows.swaps, row, swap, side);
    }
  }

  /** An extraction holds rows of the swap with exactly the sides of what was known. */
  lemma {:induction false} ExtractedRows(ranks: Ranks, cache: Cache, steps: seq<Step>, swap: SwapLog, side: string)
    requires LegsOf(swap).Some? && IdentifiedSteps(steps, swap)
    ensures AnyOfSwap(Extracted(ranks, cache, steps).rows.swaps, swap, side) <==> StoredAs(ranks, swap, SeenIn(ranks, cache, steps, swap), side)
  {
    if steps != [] {
      var before, step := steps[..|steps| - 1], steps[|steps| - 1];
      ExtractedRows(ranks, cache, before, swap, side);
      var x := Extracted(ranks, cache, before);
      StepRow(ranks, x, step, swap, side);
      if step.SwapSeen? && step.log == swap {
        var meta := SwapSystem.KnownAt(x.cache, swap, step.redis);
        StoredAsAppend(ranks, swap, SeenIn(ranks, cache, before, swap), [meta], side);
        StoredAsOne(ranks, swap, meta, side);
      }
    }
  }

  // ----- The rows of one commit -----

  ghost predicate HasKey<K, V>(rows: seq<Row<K, V>>, k: K) {
    exists i :: 0 <= i < |rows| && rows[i].key == k
  }

  lemma {:induction false} HasKeyAtKey<K, V>(rows: seq<Row<K, V>>, k: K)
    ensures HasKey(rows, k) <==> Rescan.AtKey(rows, k) != []
  {
    if rows != [] {
      var before, r := rows[..|rows| - 1], rows[|rows| - 1];
      HasKeyAtKey(before, k);
      assert forall i :: 0 <= i < |before| ==> before[i] == rows[i];
    }
  }

  lemma ExtractKeys(cols: SwapRow -> Columns, rows: Rows, swap: SwapLog, side: string)
    ensures HasKey(Extract(cols, rows).transactions, KeyOf(swap, side)) <==> AnyOfSwap(rows.swaps, swap, side)
  {
    var made := Extract(cols, rows).transactions;
    assert forall i :: 0 <= i < |rows.swaps| ==> (made[i].key == KeyOf(swap, side) <==> OfSwap(rows.swaps[i], swap, side));
  }

  lemma AnswerKeys(cols: SwapRow -> Columns, rows: Rows, others: seq<DexData>, swap: SwapLog, side: string)
    requires forall i :: 0 <= i < |others| ==> NoRowOf(others[i].transactions, swap)
    ensures HasKey(Merged([Extract(cols, rows)] + others).transactions, KeyOf(swap, side)) <==> AnyOfSwap(rows.swaps, swap, side)
  {
    var parts, k := [Extract(cols, rows)] + others, KeyOf(swap, side);
    Rescan.TablesAdditive();
    forall i | 0 <= i < |parts| && i != 0 ensures Rescan.AtKey(Rescan.SwapRows()(parts[i]), k) == [] {
      assert NoRowOf(others[i - 1].transactions, swap);
      HasKeyAtKey(parts[i].transactions, k);
    }
    Rescan.OneExtractor(parts, 0, Rescan.SwapRows(), k);
    HasKeyAtKey(Merged(parts).transactions, k);
    HasKeyAtKey(parts[0].transactions, k);
    ExtractKeys(cols, rows, swap, side);
  }

  lemma {:induction false} InsertedKeys<K, V>(t: Table<K, V>, rows: seq<Row<K, V>>, k: K)
    ensures k in InsertAll(t, rows) <==> k in t || HasKey(rows, k)
  {
    if rows != [] {
      var before, r := rows[..|rows| - 1], rows[|rows| - 1];
      InsertedKeys(t, before, k);
      assert forall i :: 0 <= i < |before| ==> before[i] == rows[i];
    }
  }

  // ----- The table after a run -----

  /** A batch commits what the extractors answered, or nothing. */
  lemma BatchCommits(cfg: Config, interval: SyncInterval, s: Scan, env: Env)
    ensures var s' := Batch(cfg, interval, s, env).0;
      if |s'.commits| > |s.commits| then env.dex.Ok? && s'.tables == Stored(s.tables, Merged(env.dex.value))
      else s'.tables == s.tables
  {
    if env.dex.Ok? {
      StoredEmpty(s.tables);
    }
  }

  /** The table holds the swap with exactly the sides it was stored with. */
  ghost predicate RowsMatch(t: Table<SwapKey, Columns>, ranks: Ranks, swap: SwapLog, seen: seq<Option<PoolMeta>>)
    requires LegsOf(swap).Some?
  {
    forall side :: KeyOf(swap, side) in t <==> StoredAs(ranks, swap, seen, side)
  }

  ghost predicate AllTrue(seen: seq<Option<PoolMeta>>, meta: PoolMeta) {
    forall i :: 0 <= i < |seen| ==> seen[i] == None || seen[i] == Some(meta)
  }

  ghost predicate JointInv(u: Setup, j: Joint, truth: string -> PoolMeta)
    requires LegsOf(u.swap).Some?
  {
    && Agrees(j.cache, truth) && AllTrue(j.seen, truth(u.swap.pool))
    && RowsMatch(ScanOf(u, j).tables.transactions, u.ranks, u.swap, j.seen)
  }

  /** What the extractor finds out about a pool is true. */
  lemma {:induction false} SeenIsTrue(ranks: Ranks, cache: Cache, steps: seq<Step>, swap: SwapLog, truth: string -> PoolMeta)
    requires Agrees(cache, truth) && forall i :: 0 <= i < |steps| ==> TrueStep(steps[i], truth)
    ensures Agrees(Extracted(ranks, cache, steps).cache, truth) && AllTrue(SeenIn(ranks, cache, steps, swap), truth(swap.pool))
  {
    if steps != [] {
      var before, step := steps[..|steps| - 1], steps[|steps| - 1];
      SeenIsTrue(ranks, cache, before, swap, truth);
      var x := Extracted(ranks, cache, before);
      SwapSystem.StepAgrees(ranks, x, step, truth);
      if step.SwapSeen? && step.log == swap {
        SwapSystem.KnownAtIsTrue(x.cache, swap, step.redis, truth);
      }
    }
  }

  /** A committed batch adds to the table the sides its extraction stored. */
  lemma CommittedRows(t: Table<SwapKey, Columns>, u: Setup, j: Joint, r: Round)
    requires r.Fetch? && r.others.Ok? && LegsOf(u.swap).Some? && Identifies(r, u.swap)
    requires RowsMatch(t, u.ranks, u.swap, j.seen)
    ensures var dex := Merged([Extract(u.cols, Extracted(u.ranks, j.cache, r.steps).rows)] + r.others.value);
      RowsMatch(InsertAll(t, dex.transactions), u.ranks, u.swap, j.seen + SeenIn(u.ranks, j.cache, r.steps, u.swap))
  {
    var rows := Extracted(u.ranks, j.cache, r.steps).rows;
    var dex := Merged([Extract(u.cols, rows)] + r.others.value);
    var more := SeenIn(u.ranks, j.cache, r.steps, u.swap);
    forall side ensures KeyOf(u.swap, side) in InsertAll(t, dex.transactions) <==> StoredAs(u.ranks, u.swap, j.seen + more, side) {
      InsertedKeys(t, dex.transactions, KeyOf(u.swap, side));
      AnswerKeys(u.cols, rows, r.others.value, u.swap, side);
      ExtractedRows(u.ranks, j.cache, r.steps, u.swap, side);
      StoredAsAppend(u.ranks, u.swap, j.seen, more, side);
    }
  }

  lemma AfterTick(cfg: Config, interval: SyncInterval, events: seq<ScanEvent>, env: Env)
    ensures After(cfg, interval, events + [Tick(env)]) == Batch(cfg, interval, After(cfg, interval, events), env).0
  {
    assert (events + [Tick(env)])[..|events|] == events;
  }

  lemma AfterOther(cfg: Config, interval: SyncInterval, events: seq<ScanEvent>, e: ScanEvent)
    requires !e.Tick?
    ensures After(cfg, interval, events + [e]).tables == After(cfg, interval, events).tables
  {
    assert (events + [e])[..|events|] == events;
  }

  lemma FetchInv(u: Setup, j: Joint, r: Round, truth: string -> PoolMeta)
    requires LegsOf(u.swap).Some? && JointInv(u, j, truth) && r.Fetch? && Fits(r, u.swap, truth)
    ensures JointInv(u, AfterFetch(u, j, r), truth)
  {
    var env := Event(u, j, r).env;
    SeenIsTrue(u.ranks, j.cache, r.steps, u.swap, truth);
    AfterTick(u.cfg, u.interval, j.events, env);
    BatchCommits(u.cfg, u.interval, ScanOf(u, j), env);
    if env.dex.Ok? {
      CommittedRows(ScanOf(u, j).tables.transactions, u, j, r);
    }
  }

  lemma RoundInv(u: Setup, j: Joint, r: Round, truth: string -> PoolMeta)
    requires LegsOf(u.swap).Some? && JointInv(u, j, truth) && Fits(r, u.swap, truth)
    ensures JointInv(u, JointStep(u, j, r), truth)
  {
    match r {
      case Fetch(_, _, _) => FetchInv(u, j, r, truth);
      case Elsewhere(event) =>
        if !event.Tick? {
          AfterOther(u.cfg, u.interval, j.events, event);
        }
      case Learn(op) => TrueOpAgrees(j.cache, op, truth);
    }
  }

  lemma {:induction false} RoundsInv(u: Setup, rounds: seq<Round>, truth: string -> PoolMeta)
    requires LegsOf(u.swap).Some? && AllFit(rounds, u.swap, truth)
    ensures JointInv(u, RunRounds(u, rounds), truth)
  {
    if rounds != [] {
      var before := rounds[..|rounds| - 1];
      RoundsInv(u, before, truth);
      assert Fits(rounds[|rounds| - 1], u.swap, truth);
      RoundInv(u, RunRounds(u, before), rounds[|rounds| - 1], truth);
    }
  }

  // ----- One row per swap -----

  ghost predicate OneRow(t: Table<SwapKey, Columns>, swap: SwapLog) {
    forall side, other :: KeyOf(swap, side) in t && KeyOf(swap, other) in t ==> side == other
  }

  /** The pool was known at every storing or at none. */
  ghost predicate SameKnowledge(seen: seq<Option<PoolMeta>>) {
    forall i, j :: 0 <= i < j < |seen| ==> seen[i].Some? == seen[j].Some?
  }

  predicate NoQuote(ranks: Ranks, meta: PoolMeta) {
    !IsQuote(ranks, meta.token0) && !IsQuote(ranks, meta.token1)
  }

  lemma SidesDiffer(ranks: Ranks, swap: SwapLog, meta: PoolMeta)
    requires LegsOf(swap).Some?
    ensures SideOf(ranks, swap, Some(meta)) == SideOf(ranks, swap, None) <==> NoQuote(ranks, meta)
  {
    DirectionSettles(ranks, LegsOf(swap).value, meta);
    assert "sell"[1] == 'e' && "swap"[1] == 'w';
  }

  lemma MatchedOneRow(t: Table<SwapKey, Columns>, ranks: Ranks, swap: SwapLog, seen: seq<Option<PoolMeta>>, meta: PoolMeta)
    requires LegsOf(swap).Some? && RowsMatch(t, ranks, swap, seen) && AllTrue(seen, meta)
    ensures OneRow(t, swap) <==> SameKnowledge(seen) || NoQuote(ranks, meta)
  {
    SidesDiffer(ranks, swap, meta);
    if SameKnowledge(seen) || NoQuote(ranks, meta) {
      forall side, other | KeyOf(swap, side) in t && KeyOf(swap, other) in t ensures side == other {
        assert StoredAs(ranks, swap, seen, side) && StoredAs(ranks, swap, seen, other);
      }
    } else {
      var i, j :| 0 <= i < j < |seen| && seen[i].Some? != seen[j].Some?;
      var side, other := SideOf(ranks, swap, seen[i]), SideOf(ranks, swap, seen[j]);
      assert StoredAs(ranks, swap, seen, side) && StoredAs(ranks, swap, seen, other);
      assert KeyOf(swap, side) in t && KeyOf(swap, other) in t;
    }
  }

  /** After any run of scanner and extractor, with any failures, re-scans and restarts:
      the table has a row of the swap exactly when it was stored, and only one exactly
      when its pool was known each time it was stored or never, or neither token of
      the pool is a quote asset. */
  lemma OneRowIff(u: Setup, rounds: seq<Round>, truth: string -> PoolMeta)
    requires LegsOf(u.swap).Some? && AllFit(rounds, u.swap, truth)
    ensures var j := RunRounds(u, rounds);
      var t := ScanOf(u, j).tables.transactions;
      && (OneRow(t, u.swap) <==> SameKnowledge(j.seen) || NoQuote(u.ranks, truth(u.swap.pool)))
      && (forall side :: KeyOf(u.swap, side) in t <==> StoredAs(u.ranks, u.swap, j.seen, side))
  {
    var j := RunRounds(u, rounds);
    RoundsInv(u, rounds, truth);
    MatchedOneRow(ScanOf(u, j).tables.transactions, u.ranks, u.swap, j.seen, truth(u.swap.pool));
  }

  /** The side of a row is that of the trade the log tells of, once the pool is known. */
  lemma SideOfTrade(ranks: Ranks, swap: SwapLog, meta: PoolMeta)
    requires LegsOf(swap).Some?
    ensures SideOf(ranks, swap, None) == "swap"
    ensures var side := SideOf(ranks, swap, Some(meta));
      var paid, received := if Paid0(swap) then meta.token0 else meta.token1, if Paid0(swap) then meta.token1 else meta.token0;
      && (ranks(paid) >= 0 && ranks(received) < 0 ==> side == "buy")
      && (ranks(paid) < 0 && ranks(received) >= 0 ==> side == "sell")
      && (ranks(paid) < 0 && ranks(received) < 0 ==> side == "swap")
      && (ranks(paid) >= 0 && ranks(received) >= 0 ==> side == if ranks(received) >= ranks(paid) then "sell" else "buy")
  {
    TradeDirection(ranks, swap, meta);
  }

  // ----- Within one process -----

  /** Pool creation events carry both tokens, and the process does not restart. */
  ghost predicate Steady(r: Round) {
    match r
    case Fetch(_, steps, _) => forall i :: 0 <= i < |steps| ==> PoolTokens.ValidStep(steps[i])
    case Elsewhere(event) => !event.NewProcess?
    case Learn(op) => ValidOp(op)
  }

  /** A pool once known stays known. */
  ghost predicate Rises(seen: seq<Option<PoolMeta>>) {
    forall i, j :: 0 <= i < j < |seen| && seen[i].Some? ==> seen[j].Some?
  }

  /** What was known before is known now. */
  ghost predicate KnownNow(cache: Cache, pool: string, seen: seq<Option<PoolMeta>>) {
    Rises(seen) && ((exists i :: 0 <= i < |seen| && seen[i].Some?) ==> Level(cache, pool) == 2)
  }

  lemma KnownSnoc(cache: Cache, pool: string, seen: seq<Option<PoolMeta>>, meta: Option<PoolMeta>)
    requires Rises(seen) && (meta.Some? ==> Level(cache, pool) == 2)
    requires (exists i :: 0 <= i < |seen| && seen[i].Some?) ==> meta.Some?
    ensures KnownNow(cache, pool, seen + [meta])
  {
    assert forall i :: 0 <= i < |seen| ==> (seen + [meta])[i] == seen[i];
  }

  /** However the steps of a batch continue what was seen before. */
  lemma {:induction false} StepsKnow(ranks: Ranks, cache: Cache, steps: seq<Step>, swap: SwapLog, seen: seq<Option<PoolMeta>>)
    requires LegsOf(swap).Some? && KnownNow(cache, swap.pool, seen)
    requires forall i :: 0 <= i < |steps| ==> PoolTokens.ValidStep(steps[i])
    ensures var x := Extracted(ranks, cache, steps);
      KnownNow(x.cache, swap.pool, seen + SeenIn(ranks, cache, steps, swap)) && KnownNow(x.cache, swap.pool, seen)
  {
    if steps == [] {
      assert seen + [] == seen;
    } else {
      var before, step := steps[..|steps| - 1], steps[|steps| - 1];
      StepsKnow(ranks, cache, before, swap, seen);
      StepKnows(ranks, Extracted(ranks, cache, before), step, swap, seen);
      StepKnows(ranks, Extracted(ranks, cache, before), step, swap, seen + SeenIn(ranks, cache, before, swap));
      if step.SwapSeen? && step.log == swap {
        var meta := SwapSystem.KnownAt(Extracted(ranks, cache, before).cache, swap, step.redis);
        assert seen + (SeenIn(ranks, cache, before, swap) + [meta]) == (seen + SeenIn(ranks, cache, before, swap)) + [meta];
      }
    }
  }

  lemma StepLearns(ranks: Ranks, x: Extraction, step: Step, pool: string)
    requires PoolTokens.ValidStep(step) && Level(x.cache, pool) == 2
    ensures Level(ExtractStep(ranks, x, step).cache, pool) == 2
  {
  }

  lemma StepKnows(ranks: Ranks, x: Extraction, step: Step, swap: SwapLog, seen: seq<Option<PoolMeta>>)
    requires KnownNow(x.cache, swap.pool, seen) && PoolTokens.ValidStep(step) && LegsOf(swap).Some?
    ensures KnownNow(ExtractStep(ranks, x, step).cache, swap.pool, seen)
    ensures step.SwapSeen? && step.log == swap ==>
      KnownNow(ExtractStep(ranks, x, step).cache, swap.pool, seen + [SwapSystem.KnownAt(x.cache, swap, step.redis)])
  {
    if Level(x.cache, swap.pool) == 2 {
      StepLearns(ranks, x, step, swap.pool);
    }
    if step.SwapSeen? && step.log == swap {
      KnownSnoc(ExtractStep(ranks, x, step).cache, swap.pool, seen, SwapSystem.KnownAt(x.cache, swap, step.redis));
    }
  }

  lemma {:induction false} RoundsKnow(u: Setup, rounds: seq<Round>)
    requires LegsOf(u.swap).Some? && forall i :: 0 <= i < |rounds| ==> Steady(rounds[i])
    ensures KnownNow(RunRounds(u, rounds).cache, u.swap.pool, RunRounds(u, rounds).seen)
  {
    if rounds != [] {
      var before, r := rounds[..|rounds| - 1], rounds[|rounds| - 1];
      RoundsKnow(u, before);
      assert Steady(r);
      var j := RunRounds(u, before);
      if r.Fetch? {
        StepsKnow(u.ranks, j.cache, r.steps, u.swap, j.seen);
      }
    }
  }

  /** The pool was known at the first storing, or still unknown at the last. */
  predicate Settled(seen: seq<Option<PoolMeta>>) {
    seen == [] || seen[0].Some? || seen[|seen| - 1].None?
  }

  lemma RisesOnce(seen: seq<Option<PoolMeta>>)
    requires Rises(seen)
    ensures SameKnowledge(seen) <==> Settled(seen)
  {
    if seen != [] && (seen[0].Some? || seen[|seen| - 1].None?) {
      forall i, j | 0 <= i < j < |seen| ensures seen[i].Some? == seen[j].Some? {
        assert i > 0 && seen[0].Some? ==> seen[i].Some?;
      }
    }
  }

  /** Within one process knowledge only grows: the swap has one row exactly when its
      pool was known when it was first stored, or still unknown when it was last
      stored, or neither token is a quote asset. */
  lemma OneRowInOneProcess(u: Setup, rounds: seq<Round>, truth: string -> PoolMeta)
    requires LegsOf(u.swap).Some? && AllFit(rounds, u.swap, truth)
    requires forall i :: 0 <= i < |rounds| ==> Steady(rounds[i])
    ensures var j := RunRounds(u, rounds);
      OneRow(ScanOf(u, j).tables.transactions, u.swap) <==> Settled(j.seen) || NoQuote(u.ranks, truth(u.swap.pool))
  {
    OneRowIff(u, rounds, truth);
    RoundsKnow(u, rounds);
    RisesOnce(RunRounds(u, rounds).seen);
  }

  // ----- A swap with two rows -----

  /** Two blocks a batch from block one, of which the first has the swap. */
  const CONFIG := Config(1, Some(ChainConfig(1, 1)))

  /** Only reading the checkpoint can fail. */
  function Served(readsOk: bool): Env {
    Env(ReadFaults(readsOk, readsOk), Ok(2), Ok([Block(1, 1), Block(2, 0)]), Ok([]), Acked, Acked, Acked, WriteFaults(Acked, Acked))
  }

  function Scanned(log: SwapLog, readsOk: bool): Round {
    Fetch(Served(readsOk), [SwapSeen(log, None, None, None, 0)], Ok([]))
  }

  /** The worker resolves the pool, then both reads of the checkpoint fail. */
  function ScannedAgain(log: SwapLog, meta: PoolMeta): seq<Round> {
    [Scanned(log, true), Learn(WorkerResolved(log.pool, meta)), Scanned(log, false)]
  }

  lemma ServedCommits(interval: SyncInterval, s: Scan, readsOk: bool, dex: DexData)
    requires Storable(dex)
    requires var answer := Get(s.tracker, ReadFaults(readsOk, readsOk)).1; answer.Err? || answer.value.lastBlock == 0
    ensures |Batch(CONFIG, interval, s, Served(readsOk).(dex := Ok([dex]))).0.commits| == |s.commits| + 1
  {
    assert [dex][..0] == [];
    assert Merged([dex]) == dex;
  }

  lemma OneSwap(ranks: Ranks, cache: Cache, log: SwapLog)
    requires LegsOf(log).Some?
    ensures var steps := [SwapSeen(log, None, None, None, 0)];
      var x := Extracted(ranks, cache, steps);
      && |x.rows.pools| <= 1 && x.cache == CacheStep(cache, Lazy(log.pool)).0
      && SeenIn(ranks, cache, steps, log) == [UniswapExtraction.Known(cache, log.pool)]
  {
    var steps := [SwapSeen(log, None, None, None, 0)];
    assert steps[..0] == [];
    assert Extracted(ranks, cache, steps) == ExtractStep(ranks, Extraction(cache, NO_ROWS, []), steps[0]);
  }

  lemma ScannedStep(u: Setup, j: Joint, readsOk: bool)
    requires LegsOf(u.swap).Some? && u.cfg == CONFIG
    requires var answer := Get(ScanOf(u, j).tracker, ReadFaults(readsOk, readsOk)).1; answer.Err? || answer.value.lastBlock == 0
    ensures var j' := JointStep(u, j, Scanned(u.swap, readsOk));
      && j'.seen == j.seen + [UniswapExtraction.Known(j.cache, u.swap.pool)] && j'.cache == CacheStep(j.cache, Lazy(u.swap.pool)).0
      && |ScanOf(u, j').commits| == |ScanOf(u, j).commits| + 1
  {
    OneSwap(u.ranks, j.cache, u.swap);
    var r := Scanned(u.swap, readsOk);
    var dex := Extract(u.cols, Extracted(u.ranks, j.cache, r.steps).rows);
    assert [dex] + [] == [dex];
    SwapSystem.FewRowsDistinct(dex.pools);
    AfterTick(u.cfg, u.interval, j.events, Event(u, j, r).env);
    ServedCommits(u.interval, ScanOf(u, j), readsOk, dex);
  }

  lemma ThreeRounds(u: Setup, a: Round, b: Round, c: Round)
    ensures RunRounds(u, [a, b, c]) == JointStep(u, JointStep(u, JointStep(u, FRESH, a), b), c)
  {
    var rounds := [a, b, c];
    assert rounds[..2] == [a, b] && [a, b][..1] == [a] && [a][..0] == [];
    assert RunRounds(u, [a]) == JointStep(u, FRESH, a);
    assert RunRounds(u, [a, b]) == JointStep(u, RunRounds(u, [a]), b);
  }

  lemma FirstScan(u: Setup)
    requires LegsOf(u.swap).Some? && u.cfg == CONFIG
    ensures var j := JointStep(u, FRESH, Scanned(u.swap, true));
      j.seen == [None] && |ScanOf(u, j).commits| == 1
  {
    assert ScanOf(u, FRESH) == INITIAL;
    ScannedStep(u, FRESH, true);
    assert [] + [UniswapExtraction.Known(map[], u.swap.pool)] == [None];
  }

  lemma Learned(u: Setup, j: Joint, meta: PoolMeta)
    requires meta.Resolved()
    ensures var j' := JointStep(u, j, Learn(WorkerResolved(u.swap.pool, meta)));
      && j'.seen == j.seen && j'.events == j.events
      && UniswapExtraction.Known(j'.cache, u.swap.pool) == Some(meta)
  {
  }

  lemma TwoScans(u: Setup, meta: PoolMeta)
    requires LegsOf(u.swap).Some? && u.cfg == CONFIG && meta.Resolved()
    ensures var j := RunRounds(u, ScannedAgain(u.swap, meta));
      j.seen == [None, Some(meta)] && |ScanOf(u, j).commits| == 2
  {
    var first, learn, again := Scanned(u.swap, true), Learn(WorkerResolved(u.swap.pool, meta)), Scanned(u.swap, false);
    ThreeRounds(u, first, learn, again);
    FirstScan(u);
    var j1 := JointStep(u, FRESH, first);
    ThenAgain(u, j1, meta);
  }

  lemma ThenAgain(u: Setup, j: Joint, meta: PoolMeta)
    requires LegsOf(u.swap).Some? && u.cfg == CONFIG && meta.Resolved()
    ensures var j' := JointStep(u, JointStep(u, j, Learn(WorkerResolved(u.swap.pool, meta))), Scanned(u.swap, false));
      j'.seen == j.seen + [Some(meta)] && |ScanOf(u, j').commits| == |ScanOf(u, j).commits| + 1
  {
    Learned(u, j, meta);
    ScannedStep(u, JointStep(u, j, Learn(WorkerResolved(u.swap.pool, meta))), false);
  }

  /** Both batches are stored, and the one swap has two rows: whatever its log, when
      one of the pool's tokens is a quote asset. */
  lemma StoredTwice(u: Setup, meta: PoolMeta)
    requires LegsOf(u.swap).Some? && u.cfg == CONFIG && meta.Resolved() && !NoQuote(u.ranks, meta)
    ensures var j := RunRounds(u, ScannedAgain(u.swap, meta));
      && j.seen == [None, Some(meta)] && |ScanOf(u, j).commits| == 2
      && !OneRow(ScanOf(u, j).tables.transactions, u.swap)
  {
    var rounds, truth := ScannedAgain(u.swap, meta), (pool: string) => meta;
    assert AllFit(rounds, u.swap, truth);
    TwoScans(u, meta);
    OneRowIff(u, rounds, truth);
    MixedKnowledge(meta);
  }

  lemma MixedKnowledge(meta: PoolMeta)
    ensures !SameKnowledge([None, Some(meta)])
  {
    var seen := [None, Some(meta)];
    assert seen[0].None? && seen[1].Some?;
  }
}
