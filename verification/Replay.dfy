/** What re-scanning blocks does to the tables: a log of block numbers, in which
    numbers may repeat, against the scan that stores each block once, in order. */
module Replay {
  import opened Outcomes
  import opened UpsertTables

  // ----- Logs -----

  function Interval(lo: int, hi: int): (s: seq<int>)
    ensures |s| == if lo <= hi then hi - lo + 1 else 0
    ensures forall i :: 0 <= i < |s| ==> s[i] == lo + i
    decreases hi - lo
  {
    if lo > hi then [] else [lo] + Interval(lo + 1, hi)
  }

  /** Every number of the log once, where it last occurs. */
  function Lasts(log: seq<int>): seq<int> {
    if log == [] then []
    else if log[0] in log[1..] then Lasts(log[1..])
    else [log[0]] + Lasts(log[1..])
  }

  /** Every number of the log once, where it first occurs. */
  function Firsts(log: seq<int>): seq<int> {
    if log == [] then []
    else
      var before, n := log[..|log| - 1], log[|log| - 1];
      if n in before then Firsts(before) else Firsts(before) + [n]
  }

  ghost function Rows<R>(content: int -> seq<R>, log: seq<int>): seq<R> {
    if log == [] then [] else content(log[0]) + Rows(content, log[1..])
  }

  lemma {:induction false} RowsAppend<R>(content: int -> seq<R>, a: seq<int>, b: seq<int>)
    ensures Rows(content, a + b) == Rows(content, a) + Rows(content, b)
  {
    if a == [] {
      assert a + b == b;
    } else {
      assert (a + b)[1..] == a[1..] + b;
      RowsAppend(content, a[1..], b);
    }
  }

  // ----- Only last, or first, occurrences matter -----

  lemma {:induction false} NothingLatest<R, X>(content: int -> seq<R>, log: seq<int>, f: R -> Option<X>, n: int)
    requires n in log && Latest(Rows(content, log), f).None?
    ensures Latest(content(n), f).None?
  {
    LatestAppend(content(log[0]), Rows(content, log[1..]), f);
    if n != log[0] {
      NothingLatest(content, log[1..], f, n);
    }
  }

  lemma {:induction false} LatestOfLasts<R, X>(content: int -> seq<R>, log: seq<int>, f: R -> Option<X>)
    ensures Latest(Rows(content, log), f) == Latest(Rows(content, Lasts(log)), f)
  {
    if log != [] {
      var n, rest := log[0], log[1..];
      LatestOfLasts(content, rest, f);
      LatestAppend(content(n), Rows(content, rest), f);
      if n in rest {
        if Latest(Rows(content, rest), f).None? {
          NothingLatest(content, rest, f, n);
        }
      } else {
        assert ([n] + Lasts(rest))[1..] == Lasts(rest);
        LatestAppend(content(n), Rows(content, Lasts(rest)), f);
      }
    }
  }

  lemma {:induction false} NothingEarliest<R, X>(content: int -> seq<R>, log: seq<int>, f: R -> Option<X>, n: int)
    requires n in log && Earliest(Rows(content, log), f).None?
    ensures Earliest(content(n), f).None?
  {
    EarliestAppend(content(log[0]), Rows(content, log[1..]), f);
    if n != log[0] {
      NothingEarliest(content, log[1..], f, n);
    }
  }

  lemma {:induction false} EarliestOfFirsts<R, X>(content: int -> seq<R>, log: seq<int>, f: R -> Option<X>)
    ensures Earliest(Rows(content, log), f) == Earliest(Rows(content, Firsts(log)), f)
  {
    if log != [] {
      var before, n := log[..|log| - 1], log[|log| - 1];
      assert log == before + [n];
      EarliestOfFirsts(content, before, f);
      RowsAppend(content, before, [n]);
      RowsAppend(content, Firsts(before), [n]);
      assert Rows(content, [n]) == content(n);
      EarliestAppend(Rows(content, before), content(n), f);
      EarliestAppend(Rows(content, Firsts(before)), content(n), f);
      if n in before && Earliest(Rows(content, before), f).None? {
        NothingEarliest(content, before, f, n);
      }
    }
  }

  lemma SameLastsSameUpserts<K(!new), V(!new)>(content: int -> seq<Row<K, V>>, log: seq<int>, other: seq<int>)
    requires Lasts(log) == Lasts(other)
    ensures UpsertAll(map[], Rows(content, log)) == UpsertAll(map[], Rows(content, other))
  {
    var t: Table<K, V> := map[];
    forall k ensures At(UpsertAll(t, Rows(content, log)), k) == At(UpsertAll(t, Rows(content, other)), k) {
      UpsertedAt(t, Rows(content, log), k);
      UpsertedAt(t, Rows(content, other), k);
      LatestOfLasts(content, log, ColsAt<K, V>(k));
      LatestOfLasts(content, other, ColsAt<K, V>(k));
      LatestOfLasts(content, log, ExtraAt<K, V>(k));
      LatestOfLasts(content, other, ExtraAt<K, V>(k));
    }
    SameTable(UpsertAll(t, Rows(content, log)), UpsertAll(t, Rows(content, other)));
  }

  lemma SameFirstsSameInserts<K(!new), V(!new)>(content: int -> seq<Row<K, V>>, log: seq<int>, other: seq<int>)
    requires Firsts(log) == Firsts(other)
    ensures InsertAll(map[], Rows(content, log)) == InsertAll(map[], Rows(content, other))
  {
    var t: Table<K, V> := map[];
    forall k ensures At(InsertAll(t, Rows(content, log)), k) == At(InsertAll(t, Rows(content, other)), k) {
      InsertedAt(t, Rows(content, log), k);
      InsertedAt(t, Rows(content, other), k);
      EarliestOfFirsts(content, log, CellAt<K, V>(k));
      EarliestOfFirsts(content, other, CellAt<K, V>(k));
    }
    SameTable(InsertAll(t, Rows(content, log)), InsertAll(t, Rows(content, other)));
  }

  // ----- The tables after a log -----

  /** The tables when the blocks of the log are stored in its order, block n
      always with the rows `content(n)`. */
  ghost function TablesAfter(content: int -> DexData, log: seq<int>): Tables {
    if log == [] then EMPTY_TABLES
    else Stored(TablesAfter(content, log[..|log| - 1]), content(log[|log| - 1]))
  }

  ghost function PoolsOf(content: int -> DexData): int -> seq<Row<string, PoolCols>> { n => content(n).pools }
  ghost function TokensOf(content: int -> DexData): int -> seq<Row<string, TokenCols>> { n => content(n).tokens }
  ghost function SwapsOf(content: int -> DexData): int -> seq<Row<SwapKey, Columns>> { n => content(n).transactions }
  ghost function LiquiditiesOf(content: int -> DexData): int -> seq<Row<LiquidityKey, Columns>> { n => content(n).liquidities }
  ghost function ReservesOf(content: int -> DexData): int -> seq<Row<ReserveKey, ReserveCols>> { n => content(n).reserves }

  lemma {:induction false} TablesAreFolds(content: int -> DexData, log: seq<int>)
    ensures TablesAfter(content, log) == Tables(
      UpsertAll(map[], Rows(PoolsOf(content), log)), UpsertAll(map[], Rows(TokensOf(content), log)),
      InsertAll(map[], Rows(SwapsOf(content), log)), InsertAll(map[], Rows(LiquiditiesOf(content), log)),
      UpsertAll(map[], Rows(ReservesOf(content), log)))
  {
    if log != [] {
      var before, n := log[..|log| - 1], log[|log| - 1];
      TablesAreFolds(content, before);
      assert log == before + [n];
      FoldStep(PoolsOf(content), before, n);
      FoldStep(TokensOf(content), before, n);
      FoldStep(SwapsOf(content), before, n);
      FoldStep(LiquiditiesOf(content), before, n);
      FoldStep(ReservesOf(content), before, n);
    }
  }

  lemma FoldStep<K, V>(content: int -> seq<Row<K, V>>, before: seq<int>, n: int)
    ensures UpsertAll(map[], Rows(content, before + [n])) == UpsertAll(UpsertAll(map[], Rows(content, before)), content(n))
    ensures InsertAll(map[], Rows(content, before + [n])) == InsertAll(InsertAll(map[], Rows(content, before)), content(n))
  {
    RowsAppend(content, before, [n]);
    assert Rows(content, [n]) == content(n);
    UpsertAllAppend(map[], Rows(content, before), content(n));
    InsertAllAppend(map[], Rows(content, before), content(n));
  }

  ghost predicate SameTables(content: int -> DexData, log: seq<int>, other: seq<int>) {
    TablesAfter(content, log) == TablesAfter(content, other)
  }

  lemma {:induction false} LastsOfDistinct(log: seq<int>)
    requires forall i, j :: 0 <= i < j < |log| ==> log[i] != log[j]
    ensures Lasts(log) == log
  {
    if log != [] {
      LastsOfDistinct(log[1..]);
    }
  }

  lemma {:induction false} FirstsOfDistinct(log: seq<int>)
    requires forall i, j :: 0 <= i < j < |log| ==> log[i] != log[j]
    ensures Firsts(log) == log
  {
    if log != [] {
      FirstsOfDistinct(log[..|log| - 1]);
    }
  }

  /** The insert-or-ignore tables only depend on the order of first occurrences. */
  lemma InsertTablesExact(content: int -> DexData, log: seq<int>, lo: int, hi: int)
    requires Firsts(log) == Interval(lo, hi)
    ensures TablesAfter(content, log).transactions == TablesAfter(content, Interval(lo, hi)).transactions
    ensures TablesAfter(content, log).liquidities == TablesAfter(content, Interval(lo, hi)).liquidities
  {
    var ideal := Interval(lo, hi);
    FirstsOfDistinct(ideal);
    TablesAreFolds(content, log);
    TablesAreFolds(content, ideal);
    SameFirstsSameInserts(SwapsOf(content), log, ideal);
    SameFirstsSameInserts(LiquiditiesOf(content), log, ideal);
  }

  /** The upsert tables only depend on the order of last occurrences. */
  lemma UpsertTablesExact(content: int -> DexData, log: seq<int>, lo: int, hi: int)
    requires Lasts(log) == Interval(lo, hi)
    ensures TablesAfter(content, log).pools == TablesAfter(content, Interval(lo, hi)).pools
    ensures TablesAfter(content, log).tokens == TablesAfter(content, Interval(lo, hi)).tokens
    ensures TablesAfter(content, log).reserves == TablesAfter(content, Interval(lo, hi)).reserves
  {
    var ideal := Interval(lo, hi);
    LastsOfDistinct(ideal);
    TablesAreFolds(content, log);
    TablesAreFolds(content, ideal);
    SameLastsSameUpserts(PoolsOf(content), log, ideal);
    SameLastsSameUpserts(TokensOf(content), log, ideal);
    SameLastsSameUpserts(ReservesOf(content), log, ideal);
  }

  // ----- When the order is wrong the tables can tell -----

  lemma {:induction false} LastsElements(log: seq<int>)
    ensures forall n :: n in Lasts(log) <==> n in log
    ensures forall i, j :: 0 <= i < j < |Lasts(log)| ==> Lasts(log)[i] != Lasts(log)[j]
  {
    if log != [] {
      LastsElements(log[1..]);
    }
  }

  lemma {:induction false} AscendingIsInterval(s: seq<int>, lo: int, hi: int)
    requires forall n :: n in s <==> lo <= n <= hi
    requires forall i :: 0 <= i < |s| - 1 ==> s[i] < s[i + 1]
    ensures s == Interval(lo, hi)
    decreases hi - lo
  {
    if s == [] {
      assert lo !in s;
    } else {
      AscendingAbove(s, 0);
      assert lo <= s[0] <= hi by {
        assert s[0] in s;
      }
      assert lo in s;
      var rest := s[1..];
      forall n ensures n in rest <==> lo + 1 <= n <= hi {
        assert s == [lo] + rest;
        if n in rest {
          var j :| 0 <= j < |rest| && rest[j] == n;
          assert s[j + 1] == n;
          assert n in s;
        }
        if lo + 1 <= n <= hi {
          assert n in s;
        }
      }
      AscendingIsInterval(rest, lo + 1, hi);
    }
  }

  lemma {:induction false} AscendingAbove(s: seq<int>, i: nat)
    requires forall i :: 0 <= i < |s| - 1 ==> s[i] < s[i + 1]
    ensures forall j :: i < j < |s| ==> s[i] < s[j]
    decreases |s| - i
  {
    if i < |s| {
      AscendingAbove(s, i + 1);
    }
  }

  /** Two blocks that write the same pool, each with its own number as the fee. */
  ghost function Rivals(x: int, y: int): int -> DexData {
    n => if n == x || n == y then NO_DATA.(pools := [Row("pool", PoolCols("", "", "", "", n, ""), None)]) else NO_DATA
  }

  lemma {:induction false} LastRivalWins(x: int, y: int, log: seq<int>, i: nat)
    requires i < |log| && (log[i] == x || log[i] == y)
    requires forall j :: i < j < |log| ==> log[j] != x && log[j] != y
    ensures Latest(Rows(PoolsOf(Rivals(x, y)), log), ColsAt("pool")) == Some(PoolCols("", "", "", "", log[i], ""))
    decreases i
  {
    var content := PoolsOf(Rivals(x, y));
    LatestAppend(content(log[0]), Rows(content, log[1..]), ColsAt<string, PoolCols>("pool"));
    if i > 0 {
      LastRivalWins(x, y, log[1..], i - 1);
    } else {
      NoRivals(x, y, log[1..]);
      assert content(log[0]) == [Row("pool", PoolCols("", "", "", "", log[0], ""), None)];
    }
  }

  lemma {:induction false} NoRivals(x: int, y: int, log: seq<int>)
    requires forall j :: 0 <= j < |log| ==> log[j] != x && log[j] != y
    ensures Rows(PoolsOf(Rivals(x, y)), log) == []
  {
    if log != [] {
      NoRivals(x, y, log[1..]);
    }
  }

  /** A log whose last occurrences are out of order has a chain on which the
      upsert tables end up different from those of the scan. */
  lemma WrongOrderShows(log: seq<int>, lo: int, hi: int) returns (content: int -> DexData)
    requires forall n :: n in log <==> lo <= n <= hi
    requires Lasts(log) != Interval(lo, hi)
    ensures !SameTables(content, log, Interval(lo, hi))
  {
    var d, ideal := Lasts(log), Interval(lo, hi);
    LastsElements(log);
    if forall i :: 0 <= i < |d| - 1 ==> d[i] < d[i + 1] {
      AscendingIsInterval(d, lo, hi);
      assert false;
    }
    var i :| 0 <= i < |d| - 1 && d[i] >= d[i + 1];
    var y, x := d[i], d[i + 1];
    assert x in d && y in d;
    assert ideal[y - lo] == y;
    content := Rivals(x, y);
    LatestOfLasts(PoolsOf(content), log, ColsAt<string, PoolCols>("pool"));
    LastRivalWins(x, y, d, i + 1);
    LastRivalWins(x, y, ideal, y - lo);
    UpsertedAt(map[], Rows(PoolsOf(content), log), "pool");
    UpsertedAt(map[], Rows(PoolsOf(content), ideal), "pool");
    TablesAreFolds(content, log);
    TablesAreFolds(content, ideal);
  }

  /** Re-scanning is safe for every chain content exactly when each block's last
      storing comes before the last storing of every higher block. */
  lemma RescanSafeIff(log: seq<int>, lo: int, hi: int)
    requires forall n :: n in log <==> lo <= n <= hi
    requires Firsts(log) == Interval(lo, hi)
    ensures (forall content :: SameTables(content, log, Interval(lo, hi))) <==> Lasts(log) == Interval(lo, hi)
  {
    if Lasts(log) == Interval(lo, hi) {
      forall content ensures SameTables(content, log, Interval(lo, hi)) {
        UpsertTablesExact(content, log, lo, hi);
        InsertTablesExact(content, log, lo, hi);
      }
    } else {
      var content := WrongOrderShows(log, lo, hi);
    }
  }

  // ----- Logs of ranges -----

  datatype Range = Range(first: int, last: int)

  function Expand(ranges: seq<Range>): seq<int> {
    if ranges == [] then []
    else Expand(ranges[..|ranges| - 1]) + Interval(ranges[|ranges| - 1].first, ranges[|ranges| - 1].last)
  }

  /** The highest block of a log that began at `lo`. */
  function Top(lo: int, ranges: seq<Range>): (top: int)
    ensures top >= lo - 1
  {
    if ranges == [] then lo - 1
    else
      var before, r := Top(lo, ranges[..|ranges| - 1]), ranges[|ranges| - 1];
      if r.last > before then r.last else before
  }

  /** Every range begins inside or right after what was there. */
  ghost predicate Grows(lo: int, ranges: seq<Range>) {
    ranges != [] ==>
      var before, r := ranges[..|ranges| - 1], ranges[|ranges| - 1];
      Grows(lo, before) && lo <= r.first <= Top(lo, before) + 1 && r.first <= r.last
  }

  lemma {:induction false} GrowingLog(lo: int, ranges: seq<Range>)
    requires Grows(lo, ranges)
    ensures Firsts(Expand(ranges)) == Interval(lo, Top(lo, ranges))
    ensures forall n :: n in Expand(ranges) <==> lo <= n <= Top(lo, ranges)
  {
    if ranges == [] {
      assert Interval(lo, lo - 1) == [];
    } else {
      var before, r := ranges[..|ranges| - 1], ranges[|ranges| - 1];
      GrowingLog(lo, before);
      FirstsExtend(Expand(before), lo, Top(lo, before), r.first, r.last);
      var more := Interval(r.first, r.last);
      forall n ensures n in Expand(ranges) <==> lo <= n <= Top(lo, ranges) {
        InInterval(r.first, r.last, n);
      }
    }
  }

  lemma InInterval(lo: int, hi: int, n: int)
    ensures n in Interval(lo, hi) <==> lo <= n <= hi
  {
    if lo <= n <= hi {
      assert Interval(lo, hi)[n - lo] == n;
    }
  }

  lemma InConcat(a: seq<int>, b: seq<int>, n: int)
    ensures n in a + b <==> n in a || n in b
  {
  }

  lemma FirstsSnoc(log: seq<int>, n: int)
    ensures Firsts(log + [n]) == if n in log then Firsts(log) else Firsts(log) + [n]
  {
    assert (log + [n])[..|log|] == log;
  }

  lemma IntervalSnoc(lo: int, hi: int)
    requires lo <= hi
    ensures Interval(lo, hi) == Interval(lo, hi - 1) + [hi]
  {
  }

  lemma {:induction false} FirstsExtend(log: seq<int>, lo: int, top: int, first: int, last: int)
    requires Firsts(log) == Interval(lo, top) && forall n :: n in log <==> lo <= n <= top
    requires lo <= first <= top + 1
    ensures Firsts(log + Interval(first, last)) == Interval(lo, if last > top then last else top)
    decreases last - first
  {
    if last < first {
      assert log + Interval(first, last) == log;
    } else {
      var sofar := log + Interval(first, last - 1);
      assert log + Interval(first, last) == sofar + [last] by {
        IntervalSnoc(first, last);
      }
      assert last in sofar <==> last <= top by {
        InConcat(log, Interval(first, last - 1), last);
        InInterval(first, last - 1, last);
      }
      FirstsExtend(log, lo, top, first, last - 1);
      FirstsSnoc(sofar, last);
      if last > top {
        IntervalSnoc(lo, last);
      }
    }
  }

  /** No range begins above the end of the one before it. */
  ghost predicate NoForwardJump(ranges: seq<Range>) {
    && (forall i :: 0 <= i < |ranges| ==> ranges[i].first <= ranges[i].last)
    && forall i :: 0 < i < |ranges| ==> ranges[i].first <= ranges[i - 1].last + 1
  }

  ghost function Without(a: seq<int>, b: seq<int>): seq<int> {
    if a == [] then []
    else if a[0] in b then Without(a[1..], b)
    else [a[0]] + Without(a[1..], b)
  }

  lemma {:induction false} LastsAppend(a: seq<int>, b: seq<int>)
    ensures Lasts(a + b) == Without(Lasts(a), b) + Lasts(b)
  {
    if a == [] {
      assert a + b == b;
    } else {
      assert (a + b)[1..] == a[1..] + b;
      LastsAppend(a[1..], b);
      assert ([a[0]] + Lasts(a[1..]))[1..] == Lasts(a[1..]);
    }
  }

  lemma {:induction false} IntervalWithout(lo: int, hi: int, first: int, b: seq<int>)
    requires lo <= first <= hi + 1
    requires forall n :: lo <= n <= hi ==> (n in b <==> first <= n)
    ensures Without(Interval(lo, hi), b) == Interval(lo, first - 1)
    decreases hi - lo
  {
    if lo <= hi {
      assert Interval(lo, hi)[1..] == Interval(lo + 1, hi);
      if lo < first {
        IntervalWithout(lo + 1, hi, first, b);
      } else {
        IntervalWithout(lo + 1, hi, lo + 1, b);
      }
    }
  }

  function Bottom(ranges: seq<Range>): int
    requires ranges != []
  {
    if |ranges| == 1 then ranges[0].first
    else
      var rest := Bottom(ranges[1..]);
      if ranges[0].first < rest then ranges[0].first else rest
  }

  lemma {:induction false} ExpandFront(ranges: seq<Range>)
    requires ranges != []
    ensures Expand(ranges) == Interval(ranges[0].first, ranges[0].last) + Expand(ranges[1..])
  {
    if |ranges| > 1 {
      var n := |ranges| - 1;
      ExpandFront(ranges[..n]);
      assert ranges[..n][1..] == ranges[1..][..n - 1];
    }
  }

  /** Each block's last storing comes in order, and the blocks are lo to hi. */
  ghost predicate InOrder(log: seq<int>, lo: int, hi: int) {
    Lasts(log) == Interval(lo, hi) && forall n :: n in log <==> lo <= n <= hi
  }

  lemma Concat(lo: int, mid: int, hi: int)
    requires lo <= mid <= hi + 1
    ensures Interval(lo, mid - 1) + Interval(mid, hi) == Interval(lo, hi)
  {
  }

  /** Storing a log that is in order after one that is, without leaving a gap and
      up to at least the same block, stays in order. */
  lemma JoinInOrder(a: seq<int>, aLo: int, aHi: int, b: seq<int>, bLo: int, bHi: int)
    requires InOrder(a, aLo, aHi) && InOrder(b, bLo, bHi)
    requires aLo <= aHi + 1 && bLo <= aHi + 1 && aHi <= bHi && aLo <= bHi
    ensures InOrder(a + b, if aLo < bLo then aLo else bLo, bHi)
  {
    forall n ensures n in a + b <==> (if aLo < bLo then aLo else bLo) <= n <= bHi {
      InConcat(a, b, n);
    }
    assert Lasts(a + b) == Interval(if aLo < bLo then aLo else bLo, bHi) by {
      LastsAppend(a, b);
      IntervalWithout(aLo, aHi, if aLo < bLo then bLo else aLo, b);
      if aLo < bLo {
        Concat(aLo, bLo, bHi);
      } else {
        assert Interval(aLo, aLo - 1) + Interval(bLo, bHi) == Interval(bLo, bHi);
      }
    }
  }

  lemma IntervalInOrder(lo: int, hi: int)
    ensures InOrder(Interval(lo, hi), lo, hi)
  {
    LastsOfDistinct(Interval(lo, hi));
    forall n ensures n in Interval(lo, hi) <==> lo <= n <= hi { InInterval(lo, hi, n); }
  }

  /** A chain of batches that goes back as it likes but never jumps forward, and
      ends where it was highest, leaves every block's last storing in order. */
  lemma {:induction false} ChainInOrder(ranges: seq<Range>)
    requires ranges != [] && NoForwardJump(ranges)
    requires forall i :: 0 <= i < |ranges| ==> ranges[i].last <= ranges[|ranges| - 1].last
    ensures InOrder(Expand(ranges), Bottom(ranges), ranges[|ranges| - 1].last)
    ensures Bottom(ranges) <= ranges[0].first
  {
    var r, rest := ranges[0], ranges[1..];
    ExpandFront(ranges);
    IntervalInOrder(r.first, r.last);
    if rest == [] {
      assert Interval(r.first, r.last) + [] == Interval(r.first, r.last);
    } else {
      forall i | 0 < i < |rest| ensures rest[i].first <= rest[i - 1].last + 1 {
        assert ranges[i + 1].first <= ranges[i].last + 1;
      }
      ChainInOrder(rest);
      assert ranges[1].first <= ranges[0].last + 1;
      JoinInOrder(Interval(r.first, r.last), r.first, r.last, Expand(rest), Bottom(rest), ranges[|ranges| - 1].last);
    }
  }

  /** Excursions heal: when everything before was in order, a chain that starts
      inside or right after it and ends at the top leaves everything in order. */
  lemma ChainHeals(lo: int, before: seq<Range>, chain: seq<Range>)
    requires InOrder(Expand(before), lo, Top(lo, before))
    requires chain != [] && NoForwardJump(chain) && lo <= Bottom(chain) && chain[0].first <= Top(lo, before) + 1
    requires forall i :: 0 <= i < |chain| ==> chain[i].last <= chain[|chain| - 1].last
    requires Top(lo, before) <= chain[|chain| - 1].last
    ensures InOrder(Expand(before) + Expand(chain), lo, chain[|chain| - 1].last)
  {
    ChainInOrder(chain);
    assert lo <= chain[|chain| - 1].last;
    JoinInOrder(Expand(before), lo, Top(lo, before), Expand(chain), Bottom(chain), chain[|chain| - 1].last);
  }
}
