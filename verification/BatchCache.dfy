/** The time-series store's batch cache: records of six kinds are collected under a
    lock and written when there are enough of them or the timer fires. */
module BatchCache {

  type Record = string

  datatype Kind = Pool | Token | Reserve | Transaction | Liquidity | SwapRecord

  /** Which writes of a flush fail: the n-th of a kind. */
  type Fails = (Kind, nat) -> bool

  datatype Kinds = Kinds(
    pools: seq<Record>, tokens: seq<Record>, reserves: seq<Record>,
    transactions: seq<Record>, liquidities: seq<Record>, swapRecords: seq<Record>)
  {
    function Plus(more: Kinds): Kinds {
      Kinds(pools + more.pools, tokens + more.tokens, reserves + more.reserves,
            transactions + more.transactions, liquidities + more.liquidities, swapRecords + more.swapRecords)
    }

    function Total(): nat {
      |pools| + |tokens| + |reserves| + |transactions| + |liquidities| + |swapRecords|
    }

    /** The records whose write does not fail. */
    function Sent(fails: Fails): Kinds {
      Kinds(Passing(pools, Pool, fails), Passing(tokens, Token, fails), Passing(reserves, Reserve, fails),
            Passing(transactions, Transaction, fails), Passing(liquidities, Liquidity, fails), Passing(swapRecords, SwapRecord, fails))
    }
  }

  const NOTHING := Kinds([], [], [], [], [], [])

  function Passing(s: seq<Record>, kind: Kind, fails: Fails): seq<Record> {
    if s == [] then []
    else
      var before, r := Passing(s[..|s| - 1], kind, fails), s[|s| - 1];
      if fails(kind, |s| - 1) then before else before + [r]
  }

  function Failing(s: seq<Record>, kind: Kind, fails: Fails): nat {
    if s == [] then 0 else Failing(s[..|s| - 1], kind, fails) + if fails(kind, |s| - 1) then 1 else 0
  }

  /** `flushed` is everything ever taken from the cache, `written` what arrived. */
  datatype Store = Store(cache: Kinds, totalCount: nat, flushed: Kinds, written: Kinds)

  const EMPTY := Store(NOTHING, 0, NOTHING, NOTHING)

  /** Any critical section of any goroutine: an addition, or a flush by size or by
      timer. */
  datatype Event = Add(data: Kinds) | Flush(fails: Fails)

  function Next(s: Store, e: Event): Store {
    match e
    case Add(d) => s.(cache := s.cache.Plus(d), totalCount := s.cache.Plus(d).Total())
    case Flush(fails) =>
      if s.totalCount == 0 then s
      else Store(NOTHING, 0, s.flushed.Plus(s.cache), s.written.Plus(s.cache.Sent(fails)))
  }

  function Run(events: seq<Event>): Store {
    if events == [] then EMPTY else Next(Run(events[..|events| - 1]), events[|events| - 1])
  }

  function Added(events: seq<Event>): Kinds {
    if events == [] then NOTHING
    else
      var before, e := Added(events[..|events| - 1]), events[|events| - 1];
      if e.Add? then before.Plus(e.data) else before
  }

  lemma PlusAssoc(a: Kinds, b: Kinds, c: Kinds)
    ensures a.Plus(b).Plus(c) == a.Plus(b.Plus(c))
    ensures a.Plus(NOTHING) == a
  {
    assert a.pools + b.pools + c.pools == a.pools + (b.pools + c.pools);
    assert a.tokens + b.tokens + c.tokens == a.tokens + (b.tokens + c.tokens);
    assert a.reserves + b.reserves + c.reserves == a.reserves + (b.reserves + c.reserves);
    assert a.transactions + b.transactions + c.transactions == a.transactions + (b.transactions + c.transactions);
    assert a.liquidities + b.liquidities + c.liquidities == a.liquidities + (b.liquidities + c.liquidities);
    assert a.swapRecords + b.swapRecords + c.swapRecords == a.swapRecords + (b.swapRecords + c.swapRecords);
  }

  lemma {:induction false} CountFailing(s: seq<Record>, kind: Kind, fails: Fails)
    ensures |Passing(s, kind, fails)| + Failing(s, kind, fails) == |s|
    ensures Failing(s, kind, fails) == 0 <==> !Meets(s, kind, fails)
    ensures Failing(s, kind, fails) == 0 ==> Passing(s, kind, fails) == s
  {
    if s != [] {
      CountFailing(s[..|s| - 1], kind, fails);
    }
  }

  ghost predicate Meets(s: seq<Record>, kind: Kind, fails: Fails) {
    exists i :: 0 <= i < |s| && fails(kind, i)
  }

  /** The write of some record of the cache fails. */
  ghost predicate MeetsAny(k: Kinds, fails: Fails) {
    || Meets(k.pools, Pool, fails) || Meets(k.tokens, Token, fails) || Meets(k.reserves, Reserve, fails)
    || Meets(k.transactions, Transaction, fails) || Meets(k.liquidities, Liquidity, fails) || Meets(k.swapRecords, SwapRecord, fails)
  }

  /** What fails of all kinds is what is missing. */
  lemma SentShrinks(k: Kinds, fails: Fails)
    ensures k.Sent(fails).Total() <= k.Total()
    ensures MeetsAny(k, fails) <==> k.Sent(fails).Total() < k.Total()
    ensures !MeetsAny(k, fails) ==> k.Sent(fails) == k
    ensures Failing(k.pools, Pool, fails) + Failing(k.tokens, Token, fails) + Failing(k.reserves, Reserve, fails)
          + Failing(k.transactions, Transaction, fails) + Failing(k.liquidities, Liquidity, fails) + Failing(k.swapRecords, SwapRecord, fails)
         == k.Total() - k.Sent(fails).Total()
  {
    CountFailing(k.pools, Pool, fails);
    CountFailing(k.tokens, Token, fails);
    CountFailing(k.reserves, Reserve, fails);
    CountFailing(k.transactions, Transaction, fails);
    CountFailing(k.liquidities, Liquidity, fails);
    CountFailing(k.swapRecords, SwapRecord, fails);
  }

  /** No flush of the run met a cached record whose write failed. */
  ghost predicate NoneLost(events: seq<Event>) {
    forall i :: 0 <= i < |events| && events[i].Flush? ==> !MeetsAny(Run(events[..i]).cache, events[i].fails)
  }

  lemma NoneLostSnoc(events: seq<Event>)
    requires events != []
    ensures var n := |events| - 1;
      NoneLost(events) <==>
        NoneLost(events[..n]) && (events[n].Flush? ==> !MeetsAny(Run(events[..n]).cache, events[n].fails))
  {
    var n := |events| - 1;
    assert forall i :: 0 <= i < n ==> events[..n][..i] == events[..i] && events[..n][i] == events[i];
  }

  lemma TotalPlus(a: Kinds, b: Kinds)
    ensures a.Plus(b).Total() == a.Total() + b.Total()
  {
  }

  /** The records of one kind, and those of it that a run added. */
  ghost function Of(k: Kinds, kind: Kind): seq<Record> {
    match kind
    case Pool => k.pools
    case Token => k.tokens
    case Reserve => k.reserves
    case Transaction => k.transactions
    case Liquidity => k.liquidities
    case SwapRecord => k.swapRecords
  }

  ghost function AddedOf(events: seq<Event>, kind: Kind): seq<Record> {
    if events == [] then []
    else
      var before, e := AddedOf(events[..|events| - 1], kind), events[|events| - 1];
      if e.Add? then before + Of(e.data, kind) else before
  }

  lemma {:induction false} AddedByKind(events: seq<Event>, kind: Kind)
    ensures Of(Added(events), kind) == AddedOf(events, kind)
  {
    if events != [] {
      AddedByKind(events[..|events| - 1], kind);
    }
  }

  lemma PlusByKind(a: Kinds, b: Kinds, kind: Kind)
    ensures Of(a.Plus(b), kind) == Of(a, kind) + Of(b, kind)
  {
  }

  lemma SameKinds(a: Kinds, b: Kinds)
    requires forall kind :: Of(a, kind) == Of(b, kind)
    ensures a == b
  {
    assert a.pools == Of(a, Pool) == b.pools && a.tokens == Of(a, Token) == b.tokens;
    assert a.reserves == Of(a, Reserve) == b.reserves && a.transactions == Of(a, Transaction) == b.transactions;
    assert a.liquidities == Of(a, Liquidity) == b.liquidities && a.swapRecords == Of(a, SwapRecord) == b.swapRecords;
  }

  /** Under any interleaving nothing is lost or reordered between adding and
      flushing, kind by kind; and the count is that of the cache. */
  lemma {:induction false} NothingLost(events: seq<Event>)
    ensures var s := Run(events);
      && (forall kind :: Of(s.flushed, kind) + Of(s.cache, kind) == AddedOf(events, kind))
      && s.totalCount == |s.cache.pools| + |s.cache.tokens| + |s.cache.reserves| + |s.cache.transactions|
                         + |s.cache.liquidities| + |s.cache.swapRecords|
  {
    FlushedThenCached(events);
    var s := Run(events);
    forall kind ensures Of(s.flushed, kind) + Of(s.cache, kind) == AddedOf(events, kind) {
      AddedByKind(events, kind);
      PlusByKind(s.flushed, s.cache, kind);
    }
  }

  lemma {:induction false} FlushedThenCached(events: seq<Event>)
    ensures var s := Run(events);
      s.flushed.Plus(s.cache) == Added(events) && s.totalCount == s.cache.Total()
  {
    if events != [] {
      var before, e := events[..|events| - 1], events[|events| - 1];
      FlushedThenCached(before);
      var s := Run(before);
      match e {
        case Add(d) => PlusAssoc(s.flushed, s.cache, d);
        case Flush(fails) => PlusAssoc(s.flushed.Plus(s.cache), NOTHING, NOTHING);
      }
    }
  }

  /** What was flushed was written exactly when no flush met a failing record; a
      failing one leaves a gap that nothing fills later. */
  lemma {:induction false} WrittenIsFlushed(events: seq<Event>)
    ensures var s := Run(events);
      && s.written.Total() <= s.flushed.Total()
      && (NoneLost(events) ==> s.written == s.flushed)
      && (!NoneLost(events) ==> s.written.Total() < s.flushed.Total())
  {
    if events != [] {
      var before, e := events[..|events| - 1], events[|events| - 1];
      WrittenIsFlushed(before);
      NoneLostSnoc(events);
      FlushedThenCached(before);
      var s := Run(before);
      if e.Flush? {
        SentShrinks(s.cache, e.fails);
        TotalPlus(s.flushed, s.cache);
        TotalPlus(s.written, s.cache.Sent(e.fails));
      }
    }
  }

  /** So what was written, followed by what is cached, is what was added, exactly
      when no flush met a record whose write failed. */
  lemma {:induction false} AddedOrLost(events: seq<Event>)
    ensures var s := Run(events);
      (forall kind :: Of(s.written, kind) + Of(s.cache, kind) == AddedOf(events, kind)) <==> NoneLost(events)
  {
    var s := Run(events);
    FlushedThenCached(events);
    WrittenIsFlushed(events);
    TotalPlus(s.written, s.cache);
    TotalPlus(s.flushed, s.cache);
    forall kind ensures Of(s.written, kind) + Of(s.cache, kind) == Of(s.written.Plus(s.cache), kind)
                     && AddedOf(events, kind) == Of(Added(events), kind) {
      PlusByKind(s.written, s.cache, kind);
      AddedByKind(events, kind);
    }
    if forall kind :: Of(s.written, kind) + Of(s.cache, kind) == AddedOf(events, kind) {
      SameKinds(s.written.Plus(s.cache), Added(events));
    }
  }

  class InfluxStorage {
    const batchSize: nat
    var cache: Kinds
    var totalCount: nat
    ghost var flushed: Kinds
    ghost var written: Kinds

    ghost predicate Valid()
      reads this
    {
      batchSize > 0 && totalCount == cache.Total()
    }

    ghost function State(): Store
      reads this
    {
      Store(cache, totalCount, flushed, written)
    }

    /** A zero batch size means the default of a thousand. */
    constructor (batchSize: nat)
      ensures Valid() && State() == EMPTY && this.batchSize == if batchSize == 0 then 1000 else batchSize
    {
      this.batchSize := if batchSize == 0 then 1000 else batchSize;
      cache, totalCount, flushed, written := NOTHING, 0, NOTHING, NOTHING;
    }

    method AddToBatch(d: Kinds)
      requires Valid()
      modifies this
      ensures Valid() && State() == Next(old(State()), Add(d))
    {
      cache := cache.Plus(d);
      totalCount := |cache.pools| + |cache.tokens| + |cache.reserves| + |cache.transactions| + |cache.liquidities| + |cache.swapRecords|;
    }

    /** `waited`: the last addition is longer ago than the flush time. There is
        something to write; a full batch is always written, and a batch that waited
        unless it is empty. */
    method ShouldFlushBatch(waited: bool) returns (flush: bool)
      requires Valid()
      ensures flush ==> cache != NOTHING
      ensures !flush ==> cache.Total() < batchSize
      ensures flush && cache.Total() < batchSize ==> waited
      ensures !flush && waited ==> cache == NOTHING
    {
      if totalCount >= batchSize {
        return true;
      }
      if waited && totalCount > 0 {
        return true;
      }
      flush := false;
    }

    method WriteAll(s: seq<Record>, kind: Kind, fails: Fails) returns (sent: seq<Record>, errors: nat)
      ensures sent == Passing(s, kind, fails) && errors == Failing(s, kind, fails)
    {
      sent, errors := [], 0;
      for i := 0 to |s|
        invariant sent == Passing(s[..i], kind, fails) && errors == Failing(s[..i], kind, fails)
      {
        assert s[..i + 1][..i] == s[..i];
        if fails(kind, i) {
          errors := errors + 1;
        } else {
          sent := sent + [s[i]];
        }
      }
      assert s[..|s|] == s;
    }

    /** The six kinds one after the other. */
    method WriteKinds(k: Kinds, fails: Fails) returns (sent: Kinds, errors: nat)
      ensures sent == k.Sent(fails) && (errors == 0 <==> !MeetsAny(k, fails))
    {
      var pools, e1 := WriteAll(k.pools, Pool, fails);
      var tokens, e2 := WriteAll(k.tokens, Token, fails);
      var reserves, e3 := WriteAll(k.reserves, Reserve, fails);
      var transactions, e4 := WriteAll(k.transactions, Transaction, fails);
      var liquidities, e5 := WriteAll(k.liquidities, Liquidity, fails);
      var swapRecords, e6 := WriteAll(k.swapRecords, SwapRecord, fails);
      SentShrinks(k, fails);
      sent, errors := Kinds(pools, tokens, reserves, transactions, liquidities, swapRecords), e1 + e2 + e3 + e4 + e5 + e6;
    }

    /** Writes every cached record once and empties the cache; a record whose write
        fails is reported, not kept. */
    method FlushBatch(fails: Fails) returns (ok: bool)
      requires Valid()
      modifies this
      ensures Valid() && State() == Next(old(State()), Flush(fails))
      ensures ok <==> !MeetsAny(old(cache), fails)
    {
      SentShrinks(cache, fails);
      if totalCount == 0 {
        return true;
      }
      var sent, errors := WriteKinds(cache, fails);
      written := written.Plus(sent);
      flushed := flushed.Plus(cache);
      cache, totalCount := NOTHING, 0;
      ok := errors == 0;
    }

    /** Left alone, storing never leaves a full batch behind. */
    method StoreDexData(d: Kinds, waited: bool, fails: Fails) returns (ok: bool)
      requires Valid()
      modifies this
      ensures Valid() && totalCount < batchSize
      ensures var added := Next(old(State()), Add(d));
        State() == if added.totalCount >= batchSize || (waited && added.totalCount > 0) then Next(added, Flush(fails)) else added
    {
      AddToBatch(d);
      var flush := ShouldFlushBatch(waited);
      ok := true;
      if flush {
        ok := FlushBatch(fails);
      }
    }
  }
}
