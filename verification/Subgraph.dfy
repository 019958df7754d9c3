/** The subgraph as a source of entities ordered by (timestamp, id), and the
    keyset pages it answers with. */
module Subgraph {
  import opened Outcomes
  import opened Cursor
  import opened Protocols
  import opened UpsertTables

  datatype TokenField = TokenField(id: string, symbol: string, name: string, decimals: string)

  datatype Entity = Entity(key: Key, fee: int, token0: TokenField, token1: TokenField)

  const PAGE_SIZE: nat := 1000

  // ----- The order -----

  predicate StringLess(a: string, b: string) {
    b != [] && (a == [] || a[0] < b[0] || (a[0] == b[0] && StringLess(a[1..], b[1..])))
  }

  predicate Less(a: Key, b: Key) {
    a.ts < b.ts || (a.ts == b.ts && StringLess(a.id, b.id))
  }

  lemma {:induction false} StringLessTransitive(a: string, b: string, c: string)
    requires StringLess(a, b) && StringLess(b, c)
    ensures StringLess(a, c)
  {
    if a != [] && a[0] == b[0] == c[0] {
      StringLessTransitive(a[1..], b[1..], c[1..]);
    }
  }

  lemma {:induction false} StringLessTotal(a: string, b: string)
    ensures a == b || StringLess(a, b) || StringLess(b, a)
    ensures !(StringLess(a, b) && StringLess(b, a)) && !StringLess(a, a)
  {
    if a != [] && b != [] {
      StringLessTotal(a[1..], b[1..]);
      if a[0] == b[0] && a[1..] == b[1..] {
        assert a == [a[0]] + a[1..] && b == [b[0]] + b[1..];
      }
    }
    if a != [] {
      StringLessTotal(a[1..], a[1..]);
    }
  }

  lemma LessTransitive(a: Key, b: Key, c: Key)
    requires Less(a, b) && Less(b, c)
    ensures Less(a, c)
  {
    if a.ts == b.ts == c.ts {
      StringLessTransitive(a.id, b.id, c.id);
    }
  }

  lemma LessTotal(a: Key, b: Key)
    ensures a == b || Less(a, b) || Less(b, a)
    ensures !(Less(a, b) && Less(b, a)) && !Less(a, a)
  {
    StringLessTotal(a.id, b.id);
  }

  /** The source sorts strictly by key. */
  ghost predicate Sorted(src: seq<Entity>) {
    forall i, j :: 0 <= i < j < |src| ==> Less(src[i].key, src[j].key)
  }

  // ----- Pages -----

  /** The entities strictly after a position. */
  function After(src: seq<Entity>, k: Key): seq<Entity> {
    if src == [] then []
    else
      var before, e := After(src[..|src| - 1], k), src[|src| - 1];
      if Less(k, e.key) then before + [e] else before
  }

  /** What the subgraph answers: the first page of them. */
  function Query(src: seq<Entity>, k: Key): seq<Entity> {
    var rest := After(src, k);
    if |rest| <= PAGE_SIZE then rest else rest[..PAGE_SIZE]
  }

  lemma {:induction false} AfterElements(src: seq<Entity>, k: Key)
    ensures forall e :: e in After(src, k) <==> e in src && Less(k, e.key)
  {
    if src != [] {
      var before, e := src[..|src| - 1], src[|src| - 1];
      AfterElements(before, k);
      assert src == before + [e];
    }
  }

  /** In a sorted source the entities after a position are its tail. */
  lemma {:induction false} AfterIsSuffix(src: seq<Entity>, k: Key) returns (n: nat)
    requires Sorted(src)
    ensures n <= |src| && After(src, k) == src[n..]
    ensures forall i :: 0 <= i < n ==> !Less(k, src[i].key)
    ensures forall i :: n <= i < |src| ==> Less(k, src[i].key)
  {
    if src == [] {
      n := 0;
    } else {
      var before, e := src[..|src| - 1], src[|src| - 1];
      n := AfterIsSuffix(before, k);
      if Less(k, e.key) {
        assert src[n..] == before[n..] + [e];
      } else {
        if n < |before| {
          LessTransitive(k, before[n].key, e.key);
        }
        assert n == |before|;
        n := |src|;
      }
    }
  }

  /** Growing at the end only adds at the end of what comes after a position. */
  lemma {:induction false} AfterGrows(src: seq<Entity>, n: nat, k: Key)
    requires n <= |src|
    ensures After(src[..n], k) <= After(src, k)
  {
    if n == |src| {
      assert src[..n] == src;
    } else {
      assert src[..|src| - 1][..n] == src[..n];
      AfterGrows(src[..|src| - 1], n, k);
    }
  }

  /** What comes after an entity of the tail is the rest of the tail. */
  lemma AfterEntity(src: seq<Entity>, k: Key, i: nat)
    requires Sorted(src) && i < |After(src, k)|
    ensures After(src, After(src, k)[i].key) == After(src, k)[i + 1..]
  {
    var n := AfterIsSuffix(src, k);
    var last := src[n + i].key;
    var m := AfterIsSuffix(src, last);
    LessTotal(last, last);
    assert m > n + i;
    assert n + i + 1 < |src| ==> Less(last, src[n + i + 1].key);
    assert m == n + i + 1;
  }

  /** A sync from "since" starts one second earlier with an empty id. That fetches
      exactly the entities from that second on only when none was created in the
      second before: the tie branch of the query also takes those. */
  lemma InclusiveStart(src: seq<Entity>, since: int)
    ensures (forall e :: e in After(src, Key(since - 1, "")) <==> e in src && e.key.ts >= since)
       <==> (forall e :: e in src && e.key.ts == since - 1 ==> e.key.id == "")
    ensures forall e :: e in src && e.key.ts >= since ==> e in After(src, Key(since - 1, ""))
  {
    AfterElements(src, Key(since - 1, ""));
  }

  /** One pair created in the second before is enough. */
  lemma InclusiveStartTakesTooMuch(t: TokenField)
    ensures var early := Entity(Key(99, "0xa"), 3000, t, t);
      early in After([early], Key(100 - 1, ""))
  {
    AfterElements([Entity(Key(99, "0xa"), 3000, t, t)], Key(99, ""));
  }

  // ----- The rows of a page -----

  /** A pair has a fixed fee, a pool its own; `extra` stands for the JSON of the
      creation time. */
  function PoolRow(v: Version, e: Entity): Row<string, PoolCols> {
    var factory := if v.V2? then "0x5C69bEe701ef814a2B6a3EDD4B1652CB9cc5aA6f" else "0x1F98431c8aD98523631AE4a59f267346ea31F984";
    Row(e.key.id, PoolCols(factory, Protocol(v), e.token0.id, e.token1.id, if v.V2? then 3000 else e.fee, "thegraph"),
        Some(FormatInt(e.key.ts)))
  }

  function Truncated(s: string, n: nat): string {
    if |s| <= n then s else s[..n]
  }

  /** Names are cut at two hundred characters and symbols at a hundred; decimals that are
      no number become zero. */
  function TokenRow(t: TokenField): Row<string, TokenCols> {
    var decimals := ParseInt(t.decimals);
    Row(t.id, TokenCols(Truncated(t.name, 200), Truncated(t.symbol, 100), if decimals.Ok? then decimals.value else 0, false), None)
  }

  ghost predicate Mentions(page: seq<Entity>, id: string) {
    exists i :: 0 <= i < |page| && (page[i].token0.id == id || page[i].token1.id == id)
  }

  ghost predicate TokenOf(page: seq<Entity>, row: Row<string, TokenCols>) {
    exists i :: 0 <= i < |page| && (row == TokenRow(page[i].token0) || row == TokenRow(page[i].token1))
  }

  ghost predicate HasKey<V>(rows: seq<Row<string, V>>, id: string) {
    exists j :: 0 <= j < |rows| && rows[j].key == id
  }

  /** The rows written for a page: its entities in order, and every token they
      mention once. */
  ghost predicate PageRows(v: Version, page: seq<Entity>, pools: seq<Row<string, PoolCols>>, tokens: seq<Row<string, TokenCols>>) {
    && |pools| == |page|
    && (forall i :: 0 <= i < |page| ==> pools[i] == PoolRow(v, page[i]))
    && DistinctKeys(tokens)
    && (forall id :: Mentions(page, id) <==> HasKey(tokens, id))
    && (forall j :: 0 <= j < |tokens| ==> TokenOf(page, tokens[j]))
  }

  ghost predicate TokensSoFar(page: seq<Entity>, seen: set<string>, tokens: seq<Row<string, TokenCols>>) {
    && DistinctKeys(tokens)
    && (forall id :: id in seen <==> Mentions(page, id))
    && (forall id :: id in seen <==> HasKey(tokens, id))
    && (forall j :: 0 <= j < |tokens| ==> TokenOf(page, tokens[j]))
  }

  method AddToken(t: TokenField, seen: set<string>, tokens: seq<Row<string, TokenCols>>)
    returns (seen': set<string>, tokens': seq<Row<string, TokenCols>>)
    ensures seen' == seen + {t.id}
    ensures tokens' == Added(t, seen, tokens)
  {
    seen', tokens' := seen, tokens;
    if t.id !in seen {
      seen', tokens' := seen + {t.id}, tokens + [TokenRow(t)];
    }
  }

  ghost predicate RowsSoFar(v: Version, page: seq<Entity>, pools: seq<Row<string, PoolCols>>,
                            seen: set<string>, tokens: seq<Row<string, TokenCols>>) {
    && |pools| == |page|
    && (forall i :: 0 <= i < |page| ==> pools[i] == PoolRow(v, page[i]))
    && TokensSoFar(page, seen, tokens)
  }

  method AddEntity(v: Version, ghost page: seq<Entity>, e: Entity, pools: seq<Row<string, PoolCols>>,
                   seen: set<string>, tokens: seq<Row<string, TokenCols>>)
    returns (pools': seq<Row<string, PoolCols>>, seen': set<string>, tokens': seq<Row<string, TokenCols>>)
    requires RowsSoFar(v, page, pools, seen, tokens)
    ensures RowsSoFar(v, page + [e], pools', seen', tokens')
  {
    pools' := pools + [PoolRow(v, e)];
    seen', tokens' := AddToken(e.token0, seen, tokens);
    seen', tokens' := AddToken(e.token1, seen', tokens');
    TokensStep(page, e, seen, tokens);
  }

  lemma NothingSoFar(v: Version)
    ensures RowsSoFar(v, [], [], {}, [])
  {
  }

  method RowsOfPage(v: Version, page: seq<Entity>) returns (pools: seq<Row<string, PoolCols>>, tokens: seq<Row<string, TokenCols>>)
    ensures PageRows(v, page, pools, tokens)
  {
    pools, tokens := [], [];
    var seen: set<string> := {};
    ghost var done: seq<Entity> := [];
    NothingSoFar(v);
    for i := 0 to |page|
      invariant done == page[..i]
      invariant RowsSoFar(v, done, pools, seen, tokens)
    {
      pools, seen, tokens := AddEntity(v, done, page[i], pools, seen, tokens);
      done := done + [page[i]];
    }
    PageDone(v, page, pools, seen, tokens);
  }

  lemma PageDone(v: Version, page: seq<Entity>, pools: seq<Row<string, PoolCols>>, seen: set<string>, tokens: seq<Row<string, TokenCols>>)
    requires RowsSoFar(v, page, pools, seen, tokens)
    ensures PageRows(v, page, pools, tokens)
  {
  }

  ghost function Added(t: TokenField, seen: set<string>, tokens: seq<Row<string, TokenCols>>): seq<Row<string, TokenCols>> {
    if t.id in seen then tokens else tokens + [TokenRow(t)]
  }

  /** The rows have distinct keys, and these are the ids in `seen`. */
  ghost predicate Keys(tokens: seq<Row<string, TokenCols>>, seen: set<string>) {
    DistinctKeys(tokens) && forall id :: id in seen <==> HasKey(tokens, id)
  }

  lemma AddedKeys(t: TokenField, seen: set<string>, tokens: seq<Row<string, TokenCols>>)
    requires Keys(tokens, seen)
    ensures Keys(Added(t, seen, tokens), seen + {t.id})
  {
    var tokens' := Added(t, seen, tokens);
    if t.id !in seen {
      assert tokens'[|tokens|].key == t.id;
      forall id ensures HasKey(tokens', id) <==> HasKey(tokens, id) || id == t.id {
        if j :| 0 <= j < |tokens| && tokens[j].key == id {
          assert tokens'[j].key == id;
        }
      }
    }
  }

  lemma TokensStep(page: seq<Entity>, e: Entity, seen: set<string>, tokens: seq<Row<string, TokenCols>>)
    requires TokensSoFar(page, seen, tokens)
    ensures TokensSoFar(page + [e], seen + {e.token0.id} + {e.token1.id},
              Added(e.token1, seen + {e.token0.id}, Added(e.token0, seen, tokens)))
  {
    var page' := page + [e];
    var tokens0 := Added(e.token0, seen, tokens);
    var tokens' := Added(e.token1, seen + {e.token0.id}, tokens0);
    AddedKeys(e.token0, seen, tokens);
    AddedKeys(e.token1, seen + {e.token0.id}, tokens0);
    forall id ensures id in seen + {e.token0.id} + {e.token1.id} <==> Mentions(page', id) {
      MentionsSnoc(page, e, id);
    }
    forall j | 0 <= j < |tokens'| ensures TokenOf(page', tokens'[j]) {
      if j < |tokens| {
        var i :| 0 <= i < |page| && (tokens[j] == TokenRow(page[i].token0) || tokens[j] == TokenRow(page[i].token1));
        assert page'[i] == page[i];
      } else {
        assert page'[|page|] == e;
      }
    }
  }

  lemma MentionsSnoc(page: seq<Entity>, e: Entity, id: string)
    ensures Mentions(page + [e], id) <==> Mentions(page, id) || e.token0.id == id || e.token1.id == id
  {
    var page' := page + [e];
    assert page'[|page|] == e;
    if i :| 0 <= i < |page| && (page[i].token0.id == id || page[i].token1.id == id) {
      assert page'[i] == page[i];
    }
  }

  /** No page is refused by the relational store: with unique ids its rows never
      repeat a key. */
  lemma PageIsStorable(v: Version, page: seq<Entity>, pools: seq<Row<string, PoolCols>>, tokens: seq<Row<string, TokenCols>>)
    requires PageRows(v, page, pools, tokens)
    requires forall i, j :: 0 <= i < j < |page| ==> page[i].key.id != page[j].key.id
    ensures Storable(NO_DATA.(pools := pools, tokens := tokens))
  {
    ChunksOfDistinct(pools);
    ChunksOfDistinct(tokens);
  }

  lemma ChunksOfDistinct<K, V>(rows: seq<Row<K, V>>)
    requires DistinctKeys(rows)
    ensures ChunksDistinct(rows)
  {
    forall c: nat | c * CHUNK < |rows| ensures DistinctKeys(Chunk(rows, c * CHUNK)) {
      var chunk := Chunk(rows, c * CHUNK);
      forall i, j | 0 <= i < j < |chunk| ensures chunk[i].key != chunk[j].key {
        assert chunk[i] == rows[c * CHUNK + i] && chunk[j] == rows[c * CHUNK + j];
      }
    }
  }

  /** The row of an entity: its version's factory, its tokens in the source's order, its
      own fee for a pool and three thousand for a pair, and when it was created. */
  ghost predicate Describes(v: Version, e: Entity, cell: Cell<PoolCols>) {
    && cell.cols.token0 == e.token0.id && cell.cols.token1 == e.token1.id
    && cell.cols.protocol == (match v case V2 => "uniswap_v2" case V3 => "uniswap_v3")
    && cell.cols.factory == (match v
                             case V2 => "0x5C69bEe701ef814a2B6a3EDD4B1652CB9cc5aA6f"
                             case V3 => "0x1F98431c8aD98523631AE4a59f267346ea31F984")
    && cell.cols.source == "thegraph"
    && (v.V2? ==> cell.cols.fee == 3000) && (v.V3? ==> cell.cols.fee == e.fee)
    && cell.extra.Some? && ParseInt(cell.extra.value) == Ok(e.key.ts)
  }

  /** What counts as stored is described by its row in the pool table. */
  lemma HeldIsDescribed(v: Version, stored: set<Entity>, pools: Table<string, PoolCols>)
    requires Holds(v, stored, pools) && forall e :: e in stored ==> IsInt64(e.key.ts)
    ensures forall e :: e in stored ==> e.key.id in pools && Describes(v, e, pools[e.key.id])
  {
    forall e | e in stored ensures e.key.id in pools && Describes(v, e, pools[e.key.id]) {
      assert At(pools, e.key.id) == Some(Cell(PoolRow(v, e).cols, PoolRow(v, e).extra));
      IntRoundTrip(e.key.ts);
    }
  }

  /** A text as it is, or what fits of it. */
  ghost predicate Fits(text: string, field: string, most: nat) {
    text <= field && |text| <= most && (|field| <= most ==> text == field) && (|field| > most ==> |text| == most)
  }

  ghost predicate Labels(t: TokenField, cols: TokenCols) {
    && Fits(cols.name, t.name, 200) && Fits(cols.symbol, t.symbol, 100)
    && (forall n :: IsInt64(n) && t.decimals == FormatInt(n) ==> cols.decimals == n)
    && (ParseInt(t.decimals).Err? ==> cols.decimals == 0)
  }

  /** What is in the token table under this id is what some entity of the source says
      about it. */
  ghost predicate Labelled(source: seq<Entity>, id: string, tokens: Table<string, TokenCols>) {
    id in tokens && exists e, t :: e in source && (t == e.token0 || t == e.token1) && t.id == id && Labels(t, tokens[id].cols)
  }

  lemma RowLabels(t: TokenField)
    ensures Labels(t, TokenRow(t).cols)
  {
    forall n | IsInt64(n) && t.decimals == FormatInt(n) ensures TokenRow(t).cols.decimals == n {
      IntRoundTrip(n);
    }
  }

  lemma HeldIsLabelled(source: seq<Entity>, id: string, tokens: Table<string, TokenCols>)
    requires TokenHeld(source, id, tokens)
    ensures Labelled(source, id, tokens)
  {
    var row :| TokenOf(source, row) && row.key == id && row.cols == tokens[id].cols;
    var i :| 0 <= i < |source| && (row == TokenRow(source[i].token0) || row == TokenRow(source[i].token1));
    var t := if row == TokenRow(source[i].token0) then source[i].token0 else source[i].token1;
    RowLabels(t);
    assert source[i] in source;
  }

  // ----- Fetching an entity again -----

  ghost predicate UniqueIds(source: seq<Entity>) {
    forall i, j :: 0 <= i < j < |source| ==> source[i].key.id != source[j].key.id
  }

  /** The pool table holds the row of every entity of `stored`. */
  ghost predicate Holds(v: Version, stored: set<Entity>, pools: Table<string, PoolCols>) {
    forall e :: e in stored ==> At(pools, e.key.id) == Some(Cell(PoolRow(v, e).cols, PoolRow(v, e).extra))
  }

  lemma {:induction false} LatestIsSome<R, X>(rows: seq<R>, f: R -> Option<X>)
    ensures Latest(rows, f).Some? ==> exists i :: 0 <= i < |rows| && f(rows[i]) == Latest(rows, f)
    ensures Latest(rows, f).None? ==> forall i :: 0 <= i < |rows| ==> f(rows[i]).None?
  {
    if rows != [] && f(rows[|rows| - 1]).None? {
      var before := rows[..|rows| - 1];
      LatestIsSome(before, f);
      if i :| 0 <= i < |before| && f(before[i]) == Latest(before, f) {
        assert rows[i] == before[i];
      }
    }
  }

  /** An entity whose rows all carry its own columns is held after they are
      stored, if it was before or has a row. */
  lemma EntityHeld(v: Version, e: Entity, pools: Table<string, PoolCols>, rows: seq<Row<string, PoolCols>>)
    requires forall i :: 0 <= i < |rows| && rows[i].key == e.key.id ==> rows[i] == PoolRow(v, e)
    requires At(pools, e.key.id) == Some(Cell(PoolRow(v, e).cols, PoolRow(v, e).extra)) || PoolRow(v, e) in rows
    ensures At(UpsertAll(pools, rows), e.key.id) == Some(Cell(PoolRow(v, e).cols, PoolRow(v, e).extra))
  {
    var id := e.key.id;
    UpsertedAt(pools, rows, id);
    LatestIsSome(rows, ColsAt<string, PoolCols>(id));
    LatestIsSome(rows, ExtraAt<string, PoolCols>(id));
  }

  /** Storing a page, for the first time or again, keeps the row of every entity
      stored so far and adds those of the page. */
  lemma PageHolds(v: Version, source: seq<Entity>, stored: set<Entity>, pools: Table<string, PoolCols>,
                  page: seq<Entity>, rows: seq<Row<string, PoolCols>>)
    requires UniqueIds(source) && Holds(v, stored, pools)
    requires (forall e :: e in stored ==> e in source) && (forall e :: e in page ==> e in source)
    requires |rows| == |page| && forall i :: 0 <= i < |page| ==> rows[i] == PoolRow(v, page[i])
    ensures forall e :: e in stored || e in page ==>
      At(UpsertAll(pools, rows), e.key.id) == Some(Cell(PoolRow(v, e).cols, PoolRow(v, e).extra))
  {
    forall e | e in stored || e in page
      ensures At(UpsertAll(pools, rows), e.key.id) == Some(Cell(PoolRow(v, e).cols, PoolRow(v, e).extra))
    {
      forall i | 0 <= i < |rows| && rows[i].key == e.key.id ensures page[i] == e {
        assert page[i] in source && e in source;
      }
      if j :| 0 <= j < |page| && page[j] == e {
        assert rows[j] == PoolRow(v, e);
      }
      EntityHeld(v, e, pools, rows);
    }
  }

  /** The token table has this token, as some entity of the source describes it. */
  ghost predicate TokenHeld(source: seq<Entity>, id: string, tokens: Table<string, TokenCols>) {
    id in tokens && exists row :: TokenOf(source, row) && row.key == id && row.cols == tokens[id].cols
  }

  ghost predicate TokensHeld(source: seq<Entity>, e: Entity, tokens: Table<string, TokenCols>) {
    TokenHeld(source, e.token0.id, tokens) && TokenHeld(source, e.token1.id, tokens)
  }

  lemma TokenKept(source: seq<Entity>, id: string, tokens: Table<string, TokenCols>, rows: seq<Row<string, TokenCols>>)
    requires TokenHeld(source, id, tokens) || HasKey(rows, id)
    requires forall j :: 0 <= j < |rows| ==> TokenOf(source, rows[j])
    ensures TokenHeld(source, id, UpsertAll(tokens, rows))
  {
    UpsertedAt(tokens, rows, id);
    LatestIsSome(rows, ColsAt<string, TokenCols>(id));
    if Latest(rows, ColsAt<string, TokenCols>(id)).Some? {
      var j :| 0 <= j < |rows| && ColsAt<string, TokenCols>(id)(rows[j]) == Latest(rows, ColsAt<string, TokenCols>(id));
      assert TokenOf(source, rows[j]);
    } else {
      assert At(UpsertAll(tokens, rows), id) == At(tokens, id);
    }
  }

  lemma TokenOfSource(source: seq<Entity>, page: seq<Entity>, row: Row<string, TokenCols>)
    requires TokenOf(page, row) && forall e :: e in page ==> e in source
    ensures TokenOf(source, row)
  {
    var i :| 0 <= i < |page| && (row == TokenRow(page[i].token0) || row == TokenRow(page[i].token1));
    assert page[i] in source;
  }

  /** Storing a page keeps the tokens of every entity stored so far and adds those
      its entities mention. */
  lemma PageHoldsTokens(v: Version, source: seq<Entity>, stored: set<Entity>, table: Table<string, TokenCols>,
                        page: seq<Entity>, pools: seq<Row<string, PoolCols>>, tokens: seq<Row<string, TokenCols>>)
    requires forall e :: e in stored ==> TokensHeld(source, e, table)
    requires PageRows(v, page, pools, tokens) && forall e :: e in page ==> e in source
    ensures forall e :: e in stored || e in page ==> TokensHeld(source, e, UpsertAll(table, tokens))
  {
    forall j | 0 <= j < |tokens| ensures TokenOf(source, tokens[j]) {
      TokenOfSource(source, page, tokens[j]);
    }
    forall e | e in stored || e in page ensures TokensHeld(source, e, UpsertAll(table, tokens)) {
      if e in page {
        assert Mentions(page, e.token0.id) && Mentions(page, e.token1.id);
      }
      TokenKept(source, e.token0.id, table, tokens);
      TokenKept(source, e.token1.id, table, tokens);
    }
  }
}
