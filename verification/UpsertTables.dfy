/** The relational tables the DEX rows go to: keyed tables written by chunked
    multi-row statements inside one transaction. */
module UpsertTables {
  import opened Outcomes

  /** A row for a keyed table. `extra` is the nullable column that an upsert only
      overwrites with a value. */
  datatype Row<K, V> = Row(key: K, cols: V, extra: Option<string>)

  datatype Cell<V> = Cell(cols: V, extra: Option<string>)

  type Table<K, V> = map<K, Cell<V>>

  // ----- One row -----

  /** What an upsert leaves at the row's key. */
  function Merge<K, V>(t: Table<K, V>, r: Row<K, V>): Cell<V> {
    Cell(r.cols, if r.extra.Some? then r.extra else if r.key in t then t[r.key].extra else None)
  }

  function Upsert<K, V>(t: Table<K, V>, r: Row<K, V>): Table<K, V> {
    t[r.key := Merge(t, r)]
  }

  /** Insert, or do nothing when the key is taken. */
  function Insert<K, V>(t: Table<K, V>, r: Row<K, V>): Table<K, V> {
    if r.key in t then t else t[r.key := Cell(r.cols, r.extra)]
  }

  // ----- Row by row -----

  function UpsertAll<K, V>(t: Table<K, V>, rows: seq<Row<K, V>>): Table<K, V> {
    if rows == [] then t
    else Upsert(UpsertAll(t, rows[..|rows| - 1]), rows[|rows| - 1])
  }

  function InsertAll<K, V>(t: Table<K, V>, rows: seq<Row<K, V>>): Table<K, V> {
    if rows == [] then t
    else Insert(InsertAll(t, rows[..|rows| - 1]), rows[|rows| - 1])
  }

  lemma {:induction false} UpsertAllAppend<K, V>(t: Table<K, V>, a: seq<Row<K, V>>, b: seq<Row<K, V>>)
    ensures UpsertAll(t, a + b) == UpsertAll(UpsertAll(t, a), b)
  {
    if b == [] {
      assert a + b == a;
    } else {
      UpsertAllAppend(t, a, b[..|b| - 1]);
      assert (a + b)[..|a + b| - 1] == a + b[..|b| - 1];
    }
  }

  lemma {:induction false} InsertAllAppend<K, V>(t: Table<K, V>, a: seq<Row<K, V>>, b: seq<Row<K, V>>)
    ensures InsertAll(t, a + b) == InsertAll(InsertAll(t, a), b)
  {
    if b == [] {
      assert a + b == a;
    } else {
      InsertAllAppend(t, a, b[..|b| - 1]);
      assert (a + b)[..|a + b| - 1] == a + b[..|b| - 1];
    }
  }

  // ----- What decides the value at a key -----

  /** The value of the last row that has one. */
  ghost function Latest<R, X>(rows: seq<R>, f: R -> Option<X>): Option<X> {
    if rows == [] then None
    else if f(rows[|rows| - 1]).Some? then f(rows[|rows| - 1])
    else Latest(rows[..|rows| - 1], f)
  }

  /** The value of the first row that has one. */
  ghost function Earliest<R, X>(rows: seq<R>, f: R -> Option<X>): Option<X> {
    if rows == [] then None
    else if f(rows[0]).Some? then f(rows[0])
    else Earliest(rows[1..], f)
  }

  ghost function ColsAt<K(!new), V(!new)>(k: K): Row<K, V> -> Option<V> {
    (r: Row<K, V>) => if r.key == k then Some(r.cols) else None
  }

  ghost function ExtraAt<K(!new), V(!new)>(k: K): Row<K, V> -> Option<string> {
    (r: Row<K, V>) => if r.key == k then r.extra else None
  }

  ghost function CellAt<K(!new), V(!new)>(k: K): Row<K, V> -> Option<Cell<V>> {
    (r: Row<K, V>) => if r.key == k then Some(Cell(r.cols, r.extra)) else None
  }

  ghost function At<K, V>(t: Table<K, V>, k: K): Option<Cell<V>> {
    if k in t then Some(t[k]) else None
  }

  ghost function Or<X>(a: Option<X>, b: Option<X>): Option<X> {
    if a.Some? then a else b
  }

  /** An upserted table holds at each key the columns of the last row and the
      last non-null extra, and what it held before where no row says. */
  lemma {:induction false} UpsertedAt<K(!new), V(!new)>(t: Table<K, V>, rows: seq<Row<K, V>>, k: K)
    ensures At(UpsertAll(t, rows), k) ==
      match Latest(rows, ColsAt(k))
      case None => At(t, k)
      case Some(cols) => Some(Cell(cols, Or(Latest(rows, ExtraAt(k)), if k in t then t[k].extra else None)))
    ensures Latest(rows, ColsAt(k)).None? ==> Latest(rows, ExtraAt(k)).None?
  {
    if rows != [] {
      UpsertedAt(t, rows[..|rows| - 1], k);
    }
  }

  /** A table written by insert-or-ignore holds at each key the first row. */
  lemma {:induction false} InsertedAt<K(!new), V(!new)>(t: Table<K, V>, rows: seq<Row<K, V>>, k: K)
    ensures At(InsertAll(t, rows), k) == Or(At(t, k), Earliest(rows, CellAt(k)))
  {
    if rows != [] {
      var n := |rows| - 1;
      InsertedAt(t, rows[..n], k);
      assert rows == rows[..n] + [rows[n]];
      EarliestAppend(rows[..n], [rows[n]], CellAt(k));
    }
  }

  lemma {:induction false} LatestAppend<R, X>(a: seq<R>, b: seq<R>, f: R -> Option<X>)
    ensures Latest(a + b, f) == Or(Latest(b, f), Latest(a, f))
  {
    if b == [] {
      assert a + b == a;
    } else {
      LatestAppend(a, b[..|b| - 1], f);
      assert (a + b)[..|a + b| - 1] == a + b[..|b| - 1];
    }
  }

  lemma {:induction false} EarliestAppend<R, X>(a: seq<R>, b: seq<R>, f: R -> Option<X>)
    ensures Earliest(a + b, f) == Or(Earliest(a, f), Earliest(b, f))
  {
    if a == [] {
      assert a + b == b;
    } else {
      EarliestAppend(a[1..], b, f);
      assert (a + b)[1..] == a[1..] + b;
    }
  }

  /** Tables agree when they agree at every key. */
  lemma SameTable<K(!new), V(!new)>(t: Table<K, V>, u: Table<K, V>)
    requires forall k :: At(t, k) == At(u, k)
    ensures t == u
  {
    forall k ensures k in t <==> k in u {
      assert At(t, k) == At(u, k);
    }
    forall k | k in t ensures t[k] == u[k] {
      assert At(t, k) == At(u, k);
    }
  }

  /** Storing a stream of rows and then any suffix of it again changes nothing,
      whether keys are overwritten, extras kept or first rows kept. */
  lemma ReplaySuffix<K(!new), V(!new)>(t: Table<K, V>, before: seq<Row<K, V>>, suffix: seq<Row<K, V>>)
    ensures UpsertAll(t, before + suffix + suffix) == UpsertAll(t, before + suffix)
    ensures InsertAll(t, before + suffix + suffix) == InsertAll(t, before + suffix)
  {
    var once := before + suffix;
    forall k ensures At(UpsertAll(t, once + suffix), k) == At(UpsertAll(t, once), k) {
      UpsertedAt(t, once + suffix, k);
      UpsertedAt(t, once, k);
      LatestAppend(once, suffix, ColsAt<K, V>(k));
      LatestAppend(before, suffix, ColsAt<K, V>(k));
      LatestAppend(once, suffix, ExtraAt<K, V>(k));
      LatestAppend(before, suffix, ExtraAt<K, V>(k));
    }
    SameTable(UpsertAll(t, once + suffix), UpsertAll(t, once));
    forall k ensures At(InsertAll(t, once + suffix), k) == At(InsertAll(t, once), k) {
      InsertedAt(t, once + suffix, k);
      InsertedAt(t, once, k);
      EarliestAppend(once, suffix, CellAt<K, V>(k));
      EarliestAppend(before, suffix, CellAt<K, V>(k));
    }
    SameTable(InsertAll(t, once + suffix), InsertAll(t, once));
  }

  // ----- Multi-row statements -----

  const CHUNK: nat := 500

  predicate DistinctKeys<K(==), V>(rows: seq<Row<K, V>>) {
    forall i, j :: 0 <= i < j < |rows| ==> rows[i].key != rows[j].key
  }

  /** One multi-row upsert: every row is merged with the table as it was when the
      statement began, and two rows for one key are an error. */
  function UpsertStatement<K, V(==)>(t: Table<K, V>, rows: seq<Row<K, V>>): Result<Table<K, V>> {
    if DistinctKeys(rows) then Ok(t + map r | r in rows :: r.key := Merge(t, r)) else Err
  }

  lemma {:induction false} FoldOfDistinct<K, V>(t: Table<K, V>, rows: seq<Row<K, V>>)
    requires DistinctKeys(rows)
    ensures forall i :: 0 <= i < |rows| ==> At(UpsertAll(t, rows), rows[i].key) == Some(Merge(t, rows[i]))
    ensures forall k :: (forall i :: 0 <= i < |rows| ==> rows[i].key != k) ==> At(UpsertAll(t, rows), k) == At(t, k)
  {
    if rows != [] {
      var n := |rows| - 1;
      FoldOfDistinct(t, rows[..n]);
      assert At(UpsertAll(t, rows[..n]), rows[n].key) == At(t, rows[n].key);
      assert Merge(UpsertAll(t, rows[..n]), rows[n]) == Merge(t, rows[n]);
      forall i | 0 <= i < n
        ensures At(UpsertAll(t, rows), rows[i].key) == Some(Merge(t, rows[i]))
      {
        assert rows[..n][i] == rows[i];
      }
    }
  }

  /** A statement that goes through is the row-by-row fold. */
  lemma StatementIsFold<K(!new), V(!new)>(t: Table<K, V>, rows: seq<Row<K, V>>)
    requires DistinctKeys(rows)
    ensures UpsertStatement(t, rows) == Ok(UpsertAll(t, rows))
  {
    FoldOfDistinct(t, rows);
    var u := UpsertStatement(t, rows).value;
    forall k ensures At(u, k) == At(UpsertAll(t, rows), k) {
      if i :| 0 <= i < |rows| && rows[i].key == k {
        assert rows[i] in rows;
        assert u[k] == Merge(t, rows[i]);
      }
    }
    SameTable(u, UpsertAll(t, rows));
  }

  function Flatten<R>(chunks: seq<seq<R>>): seq<R> {
    if chunks == [] then [] else Flatten(chunks[..|chunks| - 1]) + chunks[|chunks| - 1]
  }

  /** One statement after the other, up to the first error. */
  function Statements<K, V(==)>(t: Table<K, V>, chunks: seq<seq<Row<K, V>>>): Result<Table<K, V>> {
    if chunks == [] then Ok(t)
    else
      var before := Statements(t, chunks[..|chunks| - 1]);
      if before.Err? then Err else UpsertStatement(before.value, chunks[|chunks| - 1])
  }

  /** However a stream is cut into statements, it goes through exactly when no
      statement repeats a key, and then the cuts do not show. */
  lemma {:induction false} AnyChunking<K(!new), V(!new)>(t: Table<K, V>, chunks: seq<seq<Row<K, V>>>)
    ensures Statements(t, chunks) ==
      if forall i :: 0 <= i < |chunks| ==> DistinctKeys(chunks[i]) then Ok(UpsertAll(t, Flatten(chunks))) else Err
  {
    if chunks != [] {
      var before, last := chunks[..|chunks| - 1], chunks[|chunks| - 1];
      AnyChunking(t, before);
      assert forall i :: 0 <= i < |before| ==> before[i] == chunks[i];
      if forall i :: 0 <= i < |chunks| ==> DistinctKeys(chunks[i]) {
        StatementIsFold(UpsertAll(t, Flatten(before)), last);
        UpsertAllAppend(t, Flatten(before), last);
      }
    }
  }

  function Chunk<R>(rows: seq<R>, i: nat): seq<R>
    requires i <= |rows|
  {
    rows[i..if i + CHUNK > |rows| then |rows| else i + CHUNK]
  }

  /** No statement of the chunked write meets the same key twice. */
  ghost predicate ChunksDistinct<K, V>(rows: seq<Row<K, V>>) {
    forall c: nat :: c * CHUNK < |rows| ==> DistinctKeys(Chunk(rows, c * CHUNK))
  }

  /** A write is refused exactly when two of its rows for one key fall into the same
      block of five hundred. */
  lemma RepeatsInOneChunk<K, V>(rows: seq<Row<K, V>>)
    ensures ChunksDistinct(rows) <==>
      forall i, j :: 0 <= i < j < |rows| && i / 500 == j / 500 ==> rows[i].key != rows[j].key
  {
    if ChunksDistinct(rows) {
      forall i, j | 0 <= i < j < |rows| && i / 500 == j / 500 ensures rows[i].key != rows[j].key {
        var c: nat := i / CHUNK;
        var chunk := Chunk(rows, c * CHUNK);
        assert DistinctKeys(chunk);
        assert chunk[i - c * CHUNK] == rows[i] && chunk[j - c * CHUNK] == rows[j];
      }
    } else {
      var c: nat :| c * CHUNK < |rows| && !DistinctKeys(Chunk(rows, c * CHUNK));
      var chunk := Chunk(rows, c * CHUNK);
      var i, j :| 0 <= i < j < |chunk| && chunk[i].key == chunk[j].key;
      assert rows[c * CHUNK + i].key == rows[c * CHUNK + j].key;
      assert (c * CHUNK + i) / 500 == c == (c * CHUNK + j) / 500;
    }
  }

  /** Two rows for one key are enough. */
  lemma SameKeyRefused<K, V>(a: Row<K, V>, b: Row<K, V>)
    requires a.key == b.key
    ensures !ChunksDistinct([a, b])
  {
    var rows := [a, b];
    assert Chunk(rows, 0 * CHUNK)[0].key == Chunk(rows, 0 * CHUNK)[1].key;
  }

  ghost predicate FirstChunksDistinct<K, V>(rows: seq<Row<K, V>>, n: nat) {
    forall c: nat :: c < n && c * CHUNK < |rows| ==> DistinctKeys(Chunk(rows, c * CHUNK))
  }

  lemma NextChunk<K, V>(rows: seq<Row<K, V>>, n: nat)
    requires n * CHUNK < |rows| && FirstChunksDistinct(rows, n)
    ensures FirstChunksDistinct(rows, n + 1) <==> DistinctKeys(Chunk(rows, n * CHUNK))
    ensures (n + 1) * CHUNK >= |rows| && FirstChunksDistinct(rows, n + 1) ==> ChunksDistinct(rows)
    ensures ChunksDistinct(rows) ==> DistinctKeys(Chunk(rows, n * CHUNK))
  {
    forall c: nat | (n + 1) * CHUNK >= |rows| && c * CHUNK < |rows| ensures c < n + 1 {
    }
  }

  lemma FoldOn<K, V>(t: Table<K, V>, rows: seq<Row<K, V>>, i: nat, end: nat)
    requires i <= end <= |rows|
    ensures UpsertAll(UpsertAll(t, rows[..i]), rows[i..end]) == UpsertAll(t, rows[..end])
    ensures InsertAll(InsertAll(t, rows[..i]), rows[i..end]) == InsertAll(t, rows[..end])
  {
    UpsertAllAppend(t, rows[..i], rows[i..end]);
    InsertAllAppend(t, rows[..i], rows[i..end]);
    assert rows[..i] + rows[i..end] == rows[..end];
  }

  method UpsertChunked<K(!new, ==), V(!new, ==)>(t: Table<K, V>, rows: seq<Row<K, V>>) returns (r: Result<Table<K, V>>)
    ensures r == if ChunksDistinct(rows) then Ok(UpsertAll(t, rows)) else Err
  {
    var table, i := t, 0;
    ghost var c := 0;
    while i < |rows|
      invariant i == if c * CHUNK <= |rows| then c * CHUNK else |rows|
      invariant FirstChunksDistinct(rows, c)
      invariant i >= |rows| ==> ChunksDistinct(rows)
      invariant table == UpsertAll(t, rows[..i])
    {
      var end := if i + CHUNK > |rows| then |rows| else i + CHUNK;
      NextChunk(rows, c);
      var done := UpsertStatement(table, rows[i..end]);
      if done.Err? {
        return Err;
      }
      StatementIsFold(table, rows[i..end]);
      FoldOn(t, rows, i, end);
      table, i, c := done.value, end, c + 1;
    }
    assert rows[..i] == rows;
    r := Ok(table);
  }

  method InsertChunked<K(==), V(==)>(t: Table<K, V>, rows: seq<Row<K, V>>) returns (table: Table<K, V>)
    ensures table == InsertAll(t, rows)
  {
    table := t;
    var i := 0;
    while i < |rows|
      invariant 0 <= i <= |rows|
      invariant table == InsertAll(t, rows[..i])
    {
      var end := if i + CHUNK > |rows| then |rows| else i + CHUNK;
      FoldOn(t, rows, i, end);
      table, i := InsertAll(table, rows[i..end]), end;
    }
    assert rows[..i] == rows;
  }

  // ----- The five tables -----

  datatype PoolCols = PoolCols(factory: string, protocol: string, token0: string, token1: string, fee: int, source: string)

  datatype TokenCols = TokenCols(name: string, symbol: string, decimals: int, isStable: bool)

  datatype ReserveKey = ReserveKey(addr: string, time: int)

  datatype ReserveCols = ReserveCols(protocol: string, amount0: string, amount1: string)

  datatype SwapKey = SwapKey(hash: string, eventIndex: int, side: string)

  datatype LiquidityKey = LiquidityKey(key: string, addr: string)

  /** The columns of the two insert-or-ignore tables are opaque to the store. */
  type Columns = seq<string>

  datatype DexData = DexData(
    pools: seq<Row<string, PoolCols>>,
    tokens: seq<Row<string, TokenCols>>,
    transactions: seq<Row<SwapKey, Columns>>,
    liquidities: seq<Row<LiquidityKey, Columns>>,
    reserves: seq<Row<ReserveKey, ReserveCols>>)
  {
    function Total(): nat {
      |pools| + |transactions| + |liquidities| + |reserves| + |tokens|
    }

    function Append(more: DexData): DexData {
      DexData(pools + more.pools, tokens + more.tokens, transactions + more.transactions,
              liquidities + more.liquidities, reserves + more.reserves)
    }
  }

  const NO_DATA := DexData([], [], [], [], [])

  datatype Tables = Tables(
    pools: Table<string, PoolCols>,
    tokens: Table<string, TokenCols>,
    transactions: Table<SwapKey, Columns>,
    liquidities: Table<LiquidityKey, Columns>,
    reserves: Table<ReserveKey, ReserveCols>)

  const EMPTY_TABLES := Tables(map[], map[], map[], map[], map[])

  function Stored(t: Tables, d: DexData): Tables {
    Tables(UpsertAll(t.pools, d.pools), UpsertAll(t.tokens, d.tokens),
           InsertAll(t.transactions, d.transactions), InsertAll(t.liquidities, d.liquidities),
           UpsertAll(t.reserves, d.reserves))
  }

  /** The data does not make any upsert statement touch a row twice. */
  ghost predicate Storable(d: DexData) {
    ChunksDistinct(d.pools) && ChunksDistinct(d.tokens) && ChunksDistinct(d.reserves)
  }

  lemma StoredAppend(t: Tables, a: DexData, b: DexData)
    ensures Stored(t, a.Append(b)) == Stored(Stored(t, a), b)
  {
    UpsertAllAppend(t.pools, a.pools, b.pools);
    UpsertAllAppend(t.tokens, a.tokens, b.tokens);
    InsertAllAppend(t.transactions, a.transactions, b.transactions);
    InsertAllAppend(t.liquidities, a.liquidities, b.liquidities);
    UpsertAllAppend(t.reserves, a.reserves, b.reserves);
  }

  class PgStore {
    var tables: Tables

    constructor ()
      ensures tables == EMPTY_TABLES
    {
      tables := EMPTY_TABLES;
    }

    /** All five kinds in one transaction: either every row is stored or none. */
    method StoreDexData(d: DexData, w: Write) returns (ok: bool)
      modifies this
      ensures tables == if Storable(d) && w.Applied() then Stored(old(tables), d) else old(tables)
      ensures ok <==> Storable(d) && w.Acked?
    {
      var pools := UpsertChunked(tables.pools, d.pools);
      if pools.Err? { return false; }
      var tokens := UpsertChunked(tables.tokens, d.tokens);
      if tokens.Err? { return false; }
      var transactions := InsertChunked(tables.transactions, d.transactions);
      var liquidities := InsertChunked(tables.liquidities, d.liquidities);
      var reserves := UpsertChunked(tables.reserves, d.reserves);
      if reserves.Err? { return false; }
      if w.Applied() {
        tables := Tables(pools.value, tokens.value, transactions, liquidities, reserves.value);
      }
      ok := w.Acked?;
    }
  }
}
