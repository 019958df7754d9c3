/** One version's prefetch sync: pages are stored one by one, and after each the
    cursor is advanced, so that a later pass resumes where this one stopped. */
module Syncer {
  import opened Outcomes
  import opened Cursor
  import opened Protocols
  import opened Subgraph
  import opened UpsertTables

  /** What goes wrong around one page. A crash ends the pass on the spot. */
  datatype PageFaults = PageFaults(
    queryOk: bool,
    crashBeforeStore: bool,
    store: Write,
    crashBeforeCursor: bool,
    cursor: Write,
    crashAfterCursor: bool)

  /** The source while a pass runs: it only grows at the end, so the n-th query
      sees the first `seen(n)` entities of what it will become. */
  datatype World = World(source: seq<Entity>, seen: nat -> nat, faults: nat -> PageFaults)

  ghost predicate ValidWorld(w: World) {
    && Sorted(w.source) && UniqueIds(w.source)
    && (forall n: nat :: w.seen(n) <= |w.source|)
    && (forall m: nat, n: nat :: m <= n ==> w.seen(m) <= w.seen(n))
    && forall e :: e in w.source ==> IsInt64(e.key.ts)
  }

  function View(w: World, n: nat): seq<Entity>
    requires ValidWorld(w)
  {
    w.source[..w.seen(n)]
  }

  /** What outlives a pass. */
  datatype Durable = Durable(stored: set<Entity>, cursor: Option<string>)

  /** `Complete(n)`: the pass ended normally with query n. */
  datatype Ending = Complete(query: nat) | Stopped

  function PageSet(page: seq<Entity>): set<Entity> {
    set e | e in page
  }

  function LastKey(page: seq<Entity>): Key
    requires page != []
  {
    page[|page| - 1].key
  }

  /** Storing a page and advancing the cursor, and whether the pass goes on. A
      cursor write that fails is only logged. */
  function OnPage(d: Durable, page: seq<Entity>, f: PageFaults): (Durable, bool)
    requires page != []
  {
    if f.crashBeforeStore then (d, false)
    else
      var stored := if f.store.Applied() then d.stored + PageSet(page) else d.stored;
      if !f.store.Acked? || f.crashBeforeCursor then (Durable(stored, d.cursor), false)
      else
        var cursor := if f.cursor.Applied() then Some(FormatCursor(LastKey(page))) else d.cursor;
        (Durable(stored, cursor), !f.crashAfterCursor)
  }

  lemma QueryProgress(src: seq<Entity>, n: nat, k: Key)
    requires Sorted(src) && n <= |src| && Query(src[..n], k) != []
    ensures var page := Query(src[..n], k);
      && |page| <= |After(src, k)|
      && After(src, LastKey(page)) == After(src, k)[|page|..]
      && page == After(src, k)[..|page|]
      && |After(src, LastKey(page))| < |After(src, k)|
  {
    AfterGrows(src, n, k);
    var page := Query(src[..n], k);
    AfterEntity(src, k, |page| - 1);
  }

  /** The pass from query n with everything up to `k` behind it: what it leaves,
      how it ends and the entities it delivered. */
  function Pass(w: World, n: nat, k: Key, d: Durable): (Durable, Ending, seq<Entity>)
    requires ValidWorld(w)
    decreases |After(w.source, k)|
  {
    if !w.faults(n).queryOk then (d, Stopped, [])
    else
      var page := Query(View(w, n), k);
      if page == [] then (d, Complete(n), [])
      else
        var (d', more) := OnPage(d, page, w.faults(n));
        if !more then (d', Stopped, page)
        else if |page| < PAGE_SIZE then (d', Complete(n), page)
        else
          QueryProgress(w.source, w.seen(n), k);
          var (d'', end, rest) := Pass(w, n + 1, LastKey(page), d');
          (d'', end, page + rest)
  }

  /** Where a pass resumes: the saved cursor, or one second before `since` when
      there is none or it cannot be read. */
  function Resume(since: int, saved: Result<Option<string>>): Key {
    if saved.Ok? && saved.value.Some? && ParseCursor(saved.value.value).Ok? then
      ParseCursor(saved.value.value).value
    else Key(since - 1, "")
  }

  function SyncPass(since: int, w: World, readable: bool, d: Durable): (Durable, Ending, seq<Entity>)
    requires ValidWorld(w)
  {
    Pass(w, 0, Resume(since, if readable then Ok(d.cursor) else Err), d)
  }

  /** The entities of a page all come from the source. */
  lemma PageFromSource(w: World, n: nat, k: Key)
    requires ValidWorld(w)
    ensures forall e :: e in Query(View(w, n), k) ==> e in w.source
    ensures UniqueIds(Query(View(w, n), k))
  {
    var page := Query(View(w, n), k);
    AfterElements(View(w, n), k);
    var m := AfterIsSuffix(View(w, n), k);
    assert forall i :: 0 <= i < |page| ==> page[i] == w.source[m + i];
  }

  class SyncVersion {
    const since: int
    const version: Version
    const store: PgStore
    ghost var stored: set<Entity>
    var cursor: Option<string>

    ghost function State(): Durable
      reads this
    {
      Durable(stored, cursor)
    }

    /** What counts as stored is in the pool table, and its tokens are in the token
        table. */
    ghost predicate Valid(source: seq<Entity>)
      reads this, store
    {
      && (forall e :: e in stored ==> e in source)
      && Holds(version, stored, store.tables.pools)
      && forall e :: e in stored ==> TokensHeld(source, e, store.tables.tokens)
    }

    constructor (since: int, version: Version, store: PgStore)
      ensures this.since == since && this.version == version && this.store == store
      ensures State() == Durable({}, None)
    {
      this.since, this.version, this.store := since, version, store;
      stored, cursor := {}, None;
    }

    method ResumeCursor(readable: bool) returns (k: Key)
      ensures k == Resume(since, if readable then Ok(cursor) else Err)
    {
      k := Key(since - 1, "");
      if readable && cursor.Some? {
        var parsed := ParseCursor(cursor.value);
        if parsed.Ok? {
          k := parsed.value;
        }
      }
    }

    method StorePage(ghost source: seq<Entity>, page: seq<Entity>, f: PageFaults) returns (more: bool)
      requires Valid(source) && UniqueIds(source)
      requires page != [] && UniqueIds(page) && forall e :: e in page ==> e in source
      modifies this, store
      ensures Valid(source)
      ensures (State(), more) == OnPage(old(State()), page, f)
    {
      if f.crashBeforeStore {
        return false;
      }
      var pools, tokens := RowsOfPage(version, page);
      PageIsStorable(version, page, pools, tokens);
      PageHolds(version, source, stored, store.tables.pools, page, pools);
      PageHoldsTokens(version, source, stored, store.tables.tokens, page, pools, tokens);
      var ok := store.StoreDexData(NO_DATA.(pools := pools, tokens := tokens), f.store);
      if f.store.Applied() {
        stored := stored + PageSet(page);
      }
      if !ok || f.crashBeforeCursor {
        return false;
      }
      if f.cursor.Applied() {
        cursor := Some(FormatCursor(LastKey(page)));
      }
      more := !f.crashAfterCursor;
    }

    method FetchPage(w: World, n: nat, k: Key) returns (page: seq<Entity>, more: bool)
      requires ValidWorld(w) && Valid(w.source) && w.faults(n).queryOk
      modifies this, store
      ensures Valid(w.source)
      ensures page == Query(View(w, n), k)
      ensures (State(), more) == if page == [] then (old(State()), false) else OnPage(old(State()), page, w.faults(n))
    {
      page := Query(View(w, n), k);
      more := false;
      if |page| > 0 {
        PageFromSource(w, n, k);
        more := StorePage(w.source, page, w.faults(n));
      }
    }

    method Sync(w: World, readable: bool) returns (end: Ending, delivered: seq<Entity>)
      requires ValidWorld(w) && Valid(w.source)
      modifies this, store
      ensures Valid(w.source)
      ensures (State(), end, delivered) == SyncPass(since, w, readable, old(State()))
    {
      var k := ResumeCursor(readable);
      ghost var all := Pass(w, 0, k, State());
      var n: nat := 0;
      delivered := [];
      assert [] + all.2 == all.2;
      while true
        invariant Valid(w.source)
        invariant all == Prepend(delivered, Pass(w, n, k, State()))
        decreases |After(w.source, k)|
      {
        assert delivered + [] == delivered;
        if !w.faults(n).queryOk {
          return Stopped, delivered;
        }
        ghost var d := State();
        var page, more := FetchPage(w, n, k);
        if |page| == 0 {
          return Complete(n), delivered;
        }
        delivered := delivered + page;
        if !more {
          return Stopped, delivered;
        }
        if |page| < PAGE_SIZE {
          return Complete(n), delivered;
        }
        PassStep(w, n, k, d, delivered[..|delivered| - |page|]);
        k, n := LastKey(page), n + 1;
      }
    }
  }

  ghost function Prepend(before: seq<Entity>, r: (Durable, Ending, seq<Entity>)): (Durable, Ending, seq<Entity>) {
    (r.0, r.1, before + r.2)
  }

  lemma PassStep(w: World, n: nat, k: Key, d: Durable, before: seq<Entity>)
    requires ValidWorld(w) && w.faults(n).queryOk && |Query(View(w, n), k)| == PAGE_SIZE
    requires OnPage(d, Query(View(w, n), k), w.faults(n)).1
    ensures var page := Query(View(w, n), k);
      && |After(w.source, LastKey(page))| < |After(w.source, k)|
      && Prepend(before, Pass(w, n, k, d))
         == Prepend(before + page, Pass(w, n + 1, LastKey(page), OnPage(d, page, w.faults(n)).0))
  {
    QueryProgress(w.source, w.seen(n), k);
    var page := Query(View(w, n), k);
    var rest := Pass(w, n + 1, LastKey(page), OnPage(d, page, w.faults(n)).0).2;
    assert before + (page + rest) == (before + page) + rest;
  }

  /** Every entity that counts as stored has the pool row that describes it, and both its
      tokens have rows that say what the source says about them. */
  lemma StoredIsDescribed(s: SyncVersion, source: seq<Entity>)
    requires s.Valid(source) && forall e :: e in source ==> IsInt64(e.key.ts)
    ensures var pools, tokens := s.store.tables.pools, s.store.tables.tokens;
      forall e :: e in s.State().stored ==>
        && e.key.id in pools && Describes(s.version, e, pools[e.key.id])
        && Labelled(source, e.token0.id, tokens) && Labelled(source, e.token1.id, tokens)
  {
    HeldIsDescribed(s.version, s.stored, s.store.tables.pools);
    forall e | e in s.stored
      ensures Labelled(source, e.token0.id, s.store.tables.tokens) && Labelled(source, e.token1.id, s.store.tables.tokens)
    {
      assert TokensHeld(source, e, s.store.tables.tokens);
      HeldIsLabelled(source, e.token0.id, s.store.tables.tokens);
      HeldIsLabelled(source, e.token1.id, s.store.tables.tokens);
    }
  }

  // ----- What a pass delivers -----

  /** The pages of a pass are, in order and each entity once, the beginning of what
      comes after the resume point; a completed pass delivers all that was there
      when its last query ran. */
  lemma {:induction false} PassDelivers(w: World, n: nat, k: Key, d: Durable)
    requires ValidWorld(w)
    ensures var (_, end, delivered) := Pass(w, n, k, d);
      && delivered <= After(w.source, k)
      && (end.Complete? ==> end.query >= n && delivered == After(View(w, end.query), k))
    decreases |After(w.source, k)|
  {
    if w.faults(n).queryOk {
      var page := Query(View(w, n), k);
      AfterGrows(w.source, w.seen(n), k);
      if page != [] && OnPage(d, page, w.faults(n)).1 && |page| == PAGE_SIZE {
        var d' := OnPage(d, page, w.faults(n)).0;
        QueryProgress(w.source, w.seen(n), k);
        PassDelivers(w, n + 1, LastKey(page), d');
        var (_, end, rest) := Pass(w, n + 1, LastKey(page), d');
        PageThenPrefix(page, rest, After(w.source, k), After(w.source, LastKey(page)));
        if end.Complete? {
          PageThenRest(w, n, end.query, k);
        }
      }
    }
  }

  lemma PageThenPrefix(page: seq<Entity>, rest: seq<Entity>, all: seq<Entity>, behind: seq<Entity>)
    requires page <= all && behind == all[|page|..] && rest <= behind
    ensures page + rest <= all
  {
  }

  /** What a later view has after a full page is what it had after the resume
      point, without the page. */
  lemma PageThenRest(w: World, n: nat, m: nat, k: Key)
    requires ValidWorld(w) && n <= m && Query(View(w, n), k) != []
    ensures var page := Query(View(w, n), k);
      After(View(w, m), k) == page + After(View(w, m), LastKey(page))
  {
    var page := Query(View(w, n), k);
    assert View(w, m)[..w.seen(n)] == View(w, n);
    assert Sorted(View(w, m));
    QueryProgress(View(w, m), w.seen(n), k);
  }

  /** Nothing of this fails but perhaps the cursor write. */
  predicate Calm(f: PageFaults) {
    f.queryOk && !f.crashBeforeStore && f.store.Acked? && !f.crashBeforeCursor && !f.crashAfterCursor
  }

  /** A pass completes if no query and no store fails and the process does not die. */
  lemma {:induction false} CalmPassCompletes(w: World, n: nat, k: Key, d: Durable)
    requires ValidWorld(w) && forall i: nat :: i >= n ==> Calm(w.faults(i))
    ensures Pass(w, n, k, d).1.Complete?
    decreases |After(w.source, k)|
  {
    var page := Query(View(w, n), k);
    assert Calm(w.faults(n));
    if |page| == PAGE_SIZE {
      QueryProgress(w.source, w.seen(n), k);
      CalmPassCompletes(w, n + 1, LastKey(page), OnPage(d, page, w.faults(n)).0);
    }
  }

  /** If a pass completes, its queries were answered and nothing failed at the pages
      before the last. */
  lemma {:induction false} CompletePassWasCalm(w: World, n: nat, k: Key, d: Durable)
    requires ValidWorld(w) && Pass(w, n, k, d).1.Complete?
    ensures var last := Pass(w, n, k, d).1.query;
      last >= n && w.faults(last).queryOk && forall i: nat :: n <= i < last ==> Calm(w.faults(i))
    decreases |After(w.source, k)|
  {
    var page := Query(View(w, n), k);
    if |page| == PAGE_SIZE && w.faults(n).queryOk && OnPage(d, page, w.faults(n)).1 {
      var d' := OnPage(d, page, w.faults(n)).0;
      GoesOnIfCalm(d, page, w.faults(n));
      PassGoesOn(w, n, k, d);
      QueryProgress(w.source, w.seen(n), k);
      CompletePassWasCalm(w, n + 1, LastKey(page), d');
      OnePageMore(w, n, Pass(w, n + 1, LastKey(page), d').1.query);
    } else {
      EndsHere(w, n, k, d);
    }
  }

  lemma GoesOnIfCalm(d: Durable, page: seq<Entity>, f: PageFaults)
    requires page != [] && f.queryOk
    ensures OnPage(d, page, f).1 <==> Calm(f)
  {
  }

  lemma OnePageMore(w: World, n: nat, last: nat)
    requires Calm(w.faults(n)) && forall i: nat :: n + 1 <= i < last ==> Calm(w.faults(i))
    ensures forall i: nat :: n <= i < last ==> Calm(w.faults(i))
  {
  }

  lemma EndsHere(w: World, n: nat, k: Key, d: Durable)
    requires ValidWorld(w) && Pass(w, n, k, d).1.Complete?
    requires var page := Query(View(w, n), k);
      !(|page| == PAGE_SIZE && w.faults(n).queryOk && OnPage(d, page, w.faults(n)).1)
    ensures Pass(w, n, k, d).1.query == n && w.faults(n).queryOk
  {
  }

  /** So a pass in which no call fails leaves nothing from the boundary on unstored, even
      if no cursor write goes through. */
  lemma CalmPassHasAll(since: int, w: World, readable: bool, d: Durable)
    requires ValidWorld(w) && Safe(w.source, since, d) && forall i: nat :: Calm(w.faults(i))
    ensures var (d', end, _) := SyncPass(since, w, readable, d);
      end.Complete? && forall e :: e in View(w, end.query) && e.key.ts >= since ==> e in d'.stored
  {
    var saved := if readable then Ok(d.cursor) else Err;
    CalmPassCompletes(w, 0, Resume(since, saved), d);
    ResumeIsStored(w.source, since, saved, d);
    PassSafe(w, since, 0, Resume(since, saved), d);
  }

  // ----- Where the cursor goes -----

  /** The page was stored and its cursor written. */
  predicate SavesCursor(f: PageFaults) {
    !f.crashBeforeStore && f.store.Acked? && !f.crashBeforeCursor && f.cursor.Applied()
  }

  lemma OnPageCursor(d: Durable, page: seq<Entity>, f: PageFaults)
    requires page != []
    ensures OnPage(d, page, f).0.cursor == if SavesCursor(f) then Some(FormatCursor(LastKey(page))) else d.cursor
  {
  }

  lemma NothingDelivered(w: World, n: nat, k: Key, d: Durable)
    requires ValidWorld(w) && Pass(w, n, k, d).2 == []
    ensures Pass(w, n, k, d).0 == d
  {
  }

  /** The page a delivered entity came with, counted in pages of a thousand. */
  function PageOf(i: nat): nat {
    i / 1000
  }

  /** The cursor is at the last of these entities. */
  ghost predicate CursorAt(d: Durable, delivered: seq<Entity>) {
    delivered != [] && d.cursor.Some? && ParseCursor(d.cursor.value) == Ok(LastKey(delivered))
  }

  lemma PageSaved(w: World, n: nat, k: Key, d: Durable)
    requires ValidWorld(w) && Query(View(w, n), k) != [] && SavesCursor(w.faults(n))
    ensures CursorAt(OnPage(d, Query(View(w, n), k), w.faults(n)).0, Query(View(w, n), k))
  {
    var page := Query(View(w, n), k);
    OnPageCursor(d, page, w.faults(n));
    PageFromSource(w, n, k);
    assert page[|page| - 1] in page;
    CursorRoundTrip(LastKey(page));
  }

  lemma LastOfBoth(d: Durable, page: seq<Entity>, rest: seq<Entity>)
    requires rest == [] ==> CursorAt(d, page)
    requires rest != [] ==> CursorAt(d, rest)
    ensures CursorAt(d, page + rest)
  {
    if rest == [] {
      assert page + rest == page;
    } else {
      assert (page + rest)[|page + rest| - 1] == rest[|rest| - 1];
    }
  }

  /** A pass that goes on after its first page. */
  lemma PassGoesOn(w: World, n: nat, k: Key, d: Durable)
    requires ValidWorld(w) && w.faults(n).queryOk && |Query(View(w, n), k)| == PAGE_SIZE
    requires OnPage(d, Query(View(w, n), k), w.faults(n)).1
    ensures var page := Query(View(w, n), k);
      var rest := Pass(w, n + 1, LastKey(page), OnPage(d, page, w.faults(n)).0);
      Pass(w, n, k, d) == (rest.0, rest.1, page + rest.2)
  {
    QueryProgress(w.source, w.seen(n), k);
  }

  /** A pass that ends with its first page. */
  lemma OnlyPage(w: World, n: nat, k: Key, d: Durable)
    requires ValidWorld(w) && w.faults(n).queryOk && Query(View(w, n), k) != []
    requires var page := Query(View(w, n), k); |page| < PAGE_SIZE || !OnPage(d, page, w.faults(n)).1
    ensures var page := Query(View(w, n), k);
      Pass(w, n, k, d).2 == page && Pass(w, n, k, d).0 == OnPage(d, page, w.faults(n)).0
  {
  }

  lemma LastOfPass(w: World, n: nat, k: Key, d: Durable)
    requires ValidWorld(w) && w.faults(n).queryOk && |Query(View(w, n), k)| == PAGE_SIZE
    requires OnPage(d, Query(View(w, n), k), w.faults(n)).1
    requires var page := Query(View(w, n), k);
      var rest := Pass(w, n + 1, LastKey(page), OnPage(d, page, w.faults(n)).0);
      if rest.2 == [] then SavesCursor(w.faults(n)) else CursorAt(rest.0, rest.2)
    ensures CursorAt(Pass(w, n, k, d).0, Pass(w, n, k, d).2)
  {
    var page := Query(View(w, n), k);
    var d' := OnPage(d, page, w.faults(n)).0;
    var rest := Pass(w, n + 1, LastKey(page), d');
    PassGoesOn(w, n, k, d);
    if rest.2 == [] {
      NothingDelivered(w, n + 1, LastKey(page), d');
      PageSaved(w, n, k, d);
    }
    LastOfBoth(rest.0, page, rest.2);
  }

  /** The last of these entities' pages, the first being page n, was stored and the cursor
      written. */
  ghost predicate LastPageSaved(w: World, n: nat, delivered: seq<Entity>) {
    delivered != [] && SavesCursor(w.faults(n + PageOf(|delivered| - 1)))
  }

  lemma LaterPage(w: World, n: nat, page: seq<Entity>, rest: seq<Entity>)
    requires 0 < |page| <= 1000 && (rest != [] ==> |page| == 1000)
    requires LastPageSaved(w, n, page + rest)
    ensures if rest == [] then SavesCursor(w.faults(n)) else LastPageSaved(w, n + 1, rest)
  {
    if rest != [] {
      assert PageOf(|page + rest| - 1) == 1 + PageOf(|rest| - 1);
    } else {
      assert PageOf(|page + rest| - 1) == 0;
    }
  }

  /** A pass that delivered something leaves the cursor at its last entity, if that
      entity's page was stored and its cursor written. */
  lemma {:induction false} CursorAdvances(w: World, n: nat, k: Key, d: Durable)
    requires ValidWorld(w) && LastPageSaved(w, n, Pass(w, n, k, d).2)
    ensures CursorAt(Pass(w, n, k, d).0, Pass(w, n, k, d).2)
    decreases |After(w.source, k)|
  {
    var page := Query(View(w, n), k);
    if OnPage(d, page, w.faults(n)).1 && |page| == PAGE_SIZE {
      PassGoesOn(w, n, k, d);
      var rest := Pass(w, n + 1, LastKey(page), OnPage(d, page, w.faults(n)).0);
      LaterPage(w, n, page, rest.2);
      if rest.2 != [] {
        QueryProgress(w.source, w.seen(n), k);
        CursorAdvances(w, n + 1, LastKey(page), OnPage(d, page, w.faults(n)).0);
      }
      LastOfPass(w, n, k, d);
    } else {
      OnlyPage(w, n, k, d);
      assert page + [] == page;
      LaterPage(w, n, page, []);
      PageSaved(w, n, k, d);
    }
  }

  /** A pass leaves the cursor where it was or moves it to an entity it delivered, which
      sorts after the place where the pass resumed. */
  lemma {:induction false} CursorFollows(w: World, n: nat, k: Key, d: Durable)
    requires ValidWorld(w)
    ensures var (d', _, delivered) := Pass(w, n, k, d);
      d'.cursor == d.cursor
      || exists e :: e in delivered && Less(k, e.key) && d'.cursor == Some(FormatCursor(e.key)) && IsInt64(e.key.ts)
    decreases |After(w.source, k)|
  {
    if w.faults(n).queryOk && Query(View(w, n), k) != [] {
      var page := Query(View(w, n), k);
      var (d', more) := OnPage(d, page, w.faults(n));
      PageFromSource(w, n, k);
      AfterElements(View(w, n), k);
      OnPageCursor(d, page, w.faults(n));
      assert page[|page| - 1] in page && page[|page| - 1] in After(View(w, n), k);
      if more && |page| == PAGE_SIZE {
        QueryProgress(w.source, w.seen(n), k);
        CursorFollows(w, n + 1, LastKey(page), d');
        var (d'', _, rest) := Pass(w, n + 1, LastKey(page), d');
        if d''.cursor != d'.cursor {
          var e :| e in rest && Less(LastKey(page), e.key) && d''.cursor == Some(FormatCursor(e.key)) && IsInt64(e.key.ts);
          LessTransitive(k, LastKey(page), e.key);
          assert e in page + rest;
        }
      }
    }
  }

  /** After such a pass the next one that can read the cursor delivers only what sorts
      after everything delivered. */
  lemma NextPassGoesOn(since: int, w: World, later: World, readable: bool, d: Durable)
    requires ValidWorld(w) && ValidWorld(later) && later.source == w.source
    requires LastPageSaved(w, 0, SyncPass(since, w, readable, d).2)
    ensures var (d', _, delivered) := SyncPass(since, w, readable, d);
      forall e :: e in SyncPass(since, later, true, d').2 ==> Less(delivered[|delivered| - 1].key, e.key)
  {
    var saved := if readable then Ok(d.cursor) else Err;
    CursorAdvances(w, 0, Resume(since, saved), d);
    var (d', _, delivered) := SyncPass(since, w, readable, d);
    DeliversBehindCursor(since, later, d', delivered);
  }

  lemma DeliversBehindCursor(since: int, w: World, d: Durable, delivered: seq<Entity>)
    requires ValidWorld(w) && CursorAt(d, delivered)
    ensures forall e :: e in SyncPass(since, w, true, d).2 ==> Less(delivered[|delivered| - 1].key, e.key)
  {
    var last := LastKey(delivered);
    PassDelivers(w, 0, last, d);
    AfterElements(w.source, last);
    assert forall e :: e in SyncPass(since, w, true, d).2 ==> e in After(w.source, last);
  }

  // ----- What survives -----

  /** Everything between the boundary and a position is stored. */
  ghost predicate StoredUpTo(source: seq<Entity>, start: Key, k: Key, stored: set<Entity>) {
    forall e :: e in source && Less(start, e.key) && !Less(k, e.key) ==> e in stored
  }

  /** The saved cursor, if any, is readable and everything from the boundary to it
      is stored. */
  ghost predicate Safe(source: seq<Entity>, since: int, d: Durable) {
    d.cursor.Some? ==>
      && ParseCursor(d.cursor.value).Ok?
      && StoredUpTo(source, Key(since - 1, ""), ParseCursor(d.cursor.value).value, d.stored)
  }

  lemma PageExtends(w: World, n: nat, start: Key, k: Key, stored: set<Entity>)
    requires ValidWorld(w) && StoredUpTo(w.source, start, k, stored)
    requires Query(View(w, n), k) != []
    ensures var page := Query(View(w, n), k);
      StoredUpTo(w.source, start, LastKey(page), stored + PageSet(page)) && IsInt64(LastKey(page).ts)
  {
    var page := Query(View(w, n), k);
    QueryProgress(w.source, w.seen(n), k);
    AfterElements(w.source, k);
    AfterElements(w.source, LastKey(page));
    assert page[|page| - 1] in After(w.source, k);
    forall e | e in w.source && Less(start, e.key) && !Less(LastKey(page), e.key)
      ensures e in stored + PageSet(page)
    {
      if Less(k, e.key) {
        assert e in After(w.source, k);
        assert After(w.source, k) == page + After(w.source, LastKey(page));
      }
    }
  }

  lemma OnPageSafe(w: World, since: int, n: nat, k: Key, d: Durable)
    requires ValidWorld(w) && Safe(w.source, since, d)
    requires StoredUpTo(w.source, Key(since - 1, ""), k, d.stored)
    requires Query(View(w, n), k) != []
    ensures var page := Query(View(w, n), k);
      var (d', more) := OnPage(d, page, w.faults(n));
      && Safe(w.source, since, d')
      && (more ==> StoredUpTo(w.source, Key(since - 1, ""), LastKey(page), d'.stored))
      && d.stored <= d'.stored
  {
    PageExtends(w, n, Key(since - 1, ""), k, d.stored);
    CursorRoundTrip(LastKey(Query(View(w, n), k)));
  }

  lemma {:induction false} PassSafe(w: World, since: int, n: nat, k: Key, d: Durable)
    requires ValidWorld(w) && Safe(w.source, since, d)
    requires StoredUpTo(w.source, Key(since - 1, ""), k, d.stored)
    ensures var (d', end, _) := Pass(w, n, k, d);
      && Safe(w.source, since, d') && d.stored <= d'.stored
      && (end.Complete? ==>
            forall e :: e in View(w, end.query) && Less(Key(since - 1, ""), e.key) ==> e in d'.stored)
    decreases |After(w.source, k)|
  {
    if w.faults(n).queryOk {
      var page := Query(View(w, n), k);
      AfterElements(View(w, n), k);
      if page == [] {
        assert After(View(w, n), k) == [];
      } else {
        OnPageSafe(w, since, n, k, d);
        var (d', more) := OnPage(d, page, w.faults(n));
        if more {
          if |page| < PAGE_SIZE {
            assert page == After(View(w, n), k);
            PageStored(d, page, w.faults(n));
          } else {
            QueryProgress(w.source, w.seen(n), k);
            PassSafe(w, since, n + 1, LastKey(page), d');
          }
        }
      }
    }
  }

  lemma PageStored(d: Durable, page: seq<Entity>, f: PageFaults)
    requires page != [] && OnPage(d, page, f).1
    ensures forall e :: e in page || e in d.stored ==> e in OnPage(d, page, f).0.stored
  {
  }

  lemma ResumeIsStored(source: seq<Entity>, since: int, saved: Result<Option<string>>, d: Durable)
    requires Safe(source, since, d)
    requires saved.Ok? ==> saved.value == d.cursor
    ensures StoredUpTo(source, Key(since - 1, ""), Resume(since, saved), d.stored)
  {
  }

  // ----- All passes -----

  /** One attempt: how far the source has grown and what fails during it. */
  datatype Attempt = Attempt(seen: nat -> nat, faults: nat -> PageFaults, readable: bool)

  ghost predicate ValidAttempts(source: seq<Entity>, attempts: seq<Attempt>) {
    forall i :: 0 <= i < |attempts| ==> ValidWorld(World(source, attempts[i].seen, attempts[i].faults))
  }

  function AfterAttempts(since: int, source: seq<Entity>, attempts: seq<Attempt>): Durable
    requires ValidAttempts(source, attempts)
  {
    if attempts == [] then Durable({}, None)
    else
      var before, a := attempts[..|attempts| - 1], attempts[|attempts| - 1];
      SyncPass(since, World(source, a.seen, a.faults), a.readable, AfterAttempts(since, source, before)).0
  }

  /** After any sequence of passes, each with its own query failures, store
      failures, lost cursor writes, crashes and unreadable cursors: everything
      between the boundary and the saved cursor is stored. */
  lemma {:induction false} CursorNeverPassesStore(since: int, source: seq<Entity>, attempts: seq<Attempt>)
    requires ValidAttempts(source, attempts)
    ensures Safe(source, since, AfterAttempts(since, source, attempts))
  {
    if attempts != [] {
      var before, a := attempts[..|attempts| - 1], attempts[|attempts| - 1];
      CursorNeverPassesStore(since, source, before);
      var d, w := AfterAttempts(since, source, before), World(source, a.seen, a.faults);
      var saved := if a.readable then Ok(d.cursor) else Err;
      assert attempts[|attempts| - 1] == a;
      ResumeIsStored(source, since, saved, d);
      PassSafe(w, since, 0, Resume(since, saved), d);
    }
  }

  /** The cursor of one state is that of the other or sorts after it. */
  ghost predicate NotBefore(cursor: Option<string>, before: Option<string>) {
    before.Some? && ParseCursor(before.value).Ok? ==>
      cursor.Some? && ParseCursor(cursor.value).Ok? && !Less(ParseCursor(cursor.value).value, ParseCursor(before.value).value)
  }

  /** Whatever fails in it, cursor writes included, a pass that can read the saved cursor
      never takes it back. */
  lemma CursorNeverGoesBack(since: int, source: seq<Entity>, attempts: seq<Attempt>)
    requires ValidAttempts(source, attempts) && attempts != [] && attempts[|attempts| - 1].readable
    ensures NotBefore(AfterAttempts(since, source, attempts).cursor, AfterAttempts(since, source, attempts[..|attempts| - 1]).cursor)
  {
    var before, a := attempts[..|attempts| - 1], attempts[|attempts| - 1];
    var d, w := AfterAttempts(since, source, before), World(source, a.seen, a.faults);
    assert attempts[|attempts| - 1] == a;
    var k := Resume(since, Ok(d.cursor));
    CursorFollows(w, 0, k, d);
    LessTotal(k, k);
    var d' := Pass(w, 0, k, d).0;
    if d'.cursor != d.cursor {
      var e :| e in Pass(w, 0, k, d).2 && Less(k, e.key) && d'.cursor == Some(FormatCursor(e.key)) && IsInt64(e.key.ts);
      CursorRoundTrip(e.key);
      LessTotal(k, e.key);
    }
  }

  // ----- A cursor that goes back -----

  /** A thousand and one entities, one a second, with ids of different lengths. */
  function Thousand(): seq<Entity> {
    var t := TokenField("0xt", "T", "Token", "18");
    seq(1001, i requires 0 <= i < 1001 => Entity(Key(i + 1, seq(i + 1, _ => 'a')), 3000, t, t))
  }

  /** All of them are there from the start and nothing fails, but for a crash, if so
      said, after the first page. */
  function Whole(crash: bool, readable: bool): Attempt {
    Attempt(n => 1001, n => PageFaults(true, false, Acked, false, Acked, crash), readable)
  }

  lemma ThousandSorted()
    ensures Sorted(Thousand()) && UniqueIds(Thousand()) && forall e :: e in Thousand() ==> IsInt64(e.key.ts)
  {
    var source := Thousand();
    forall i, j | 0 <= i < j < 1001 ensures source[i].key.id != source[j].key.id {
      assert |source[i].key.id| == i + 1 && |source[j].key.id| == j + 1;
    }
  }

  lemma AllAfter(n: nat)
    requires n <= 1001
    ensures After(Thousand(), Key(n, seq(n, _ => 'a'))) == Thousand()[n..]
  {
    ThousandSorted();
    var source, k := Thousand(), Key(n, seq(n, _ => 'a'));
    var m := AfterIsSuffix(source, k);
    if m < n {
      assert Less(k, source[m].key) && source[m].key.ts <= n;
      assert m == n - 1 && source[m].key == k;
    }
    LessTotal(k, k);
    assert n < 1001 ==> Less(k, source[n].key);
  }

  lemma WholeIsValid(crash: bool, readable: bool)
    ensures ValidAttempts(Thousand(), [Whole(crash, readable)])
    ensures var a := Whole(crash, readable); ValidWorld(World(Thousand(), a.seen, a.faults))
  {
    ThousandSorted();
  }

  lemma FirstThousand()
    ensures Query(Thousand(), Key(0, "")) == Thousand()[..1000]
  {
    AllAfter(0);
    assert seq(0, _ => 'a') == "" && Thousand()[0..] == Thousand();
  }

  lemma FirstPage(crash: bool, readable: bool)
    ensures var a := Whole(crash, readable);
      var w := World(Thousand(), a.seen, a.faults);
      ValidWorld(w) && Query(View(w, 0), Key(0, "")) == Thousand()[..1000]
  {
    WholeIsValid(crash, readable);
    FirstThousand();
    assert Thousand()[..1001] == Thousand();
  }

  lemma CrashedPass(d: Durable)
    ensures var a := Whole(true, false);
      var w := World(Thousand(), a.seen, a.faults);
      ValidWorld(w) && SyncPass(1, w, false, d).0.cursor == Some(FormatCursor(Thousand()[999].key))
  {
    FirstPage(true, false);
    assert LastKey(Thousand()[..1000]) == Thousand()[999].key;
  }

  lemma WholePass(d: Durable)
    requires d.cursor.None?
    ensures var a := Whole(false, true);
      var w := World(Thousand(), a.seen, a.faults);
      ValidWorld(w) && SyncPass(1, w, true, d).0.cursor == Some(FormatCursor(Thousand()[1000].key))
  {
    FirstPage(false, true);
    var a := Whole(false, true);
    var w, page := World(Thousand(), a.seen, a.faults), Thousand()[..1000];
    assert LastKey(page) == Key(1000, seq(1000, _ => 'a'));
    AllAfter(1000);
    assert View(w, 1) == Thousand();
    var d' := OnPage(d, page, w.faults(0)).0;
    assert Query(View(w, 1), LastKey(page)) == [Thousand()[1000]];
    assert Pass(w, 1, LastKey(page), d').0.cursor == Some(FormatCursor(Thousand()[1000].key));
  }

  lemma AttemptsSnoc(since: int, source: seq<Entity>, before: seq<Attempt>, a: Attempt)
    requires ValidAttempts(source, before) && ValidWorld(World(source, a.seen, a.faults))
    ensures ValidAttempts(source, before + [a])
    ensures AfterAttempts(since, source, before + [a])
         == SyncPass(since, World(source, a.seen, a.faults), a.readable, AfterAttempts(since, source, before)).0
  {
    var all := before + [a];
    assert all[..|before|] == before;
    forall i | 0 <= i < |all| ensures ValidWorld(World(source, all[i].seen, all[i].faults)) {
      assert i < |before| ==> all[i] == before[i];
    }
  }

  /** Nothing fails but the reading of the cursor and a crash: the pass begins at the
      boundary again, and the saved cursor goes back by one entity. */
  lemma CursorGoesBack()
    ensures var before, after := [] + [Whole(false, true)], [] + [Whole(false, true)] + [Whole(true, false)];
      && ValidAttempts(Thousand(), before) && ValidAttempts(Thousand(), after)
      && !NotBefore(AfterAttempts(1, Thousand(), after).cursor, AfterAttempts(1, Thousand(), before).cursor)
  {
    var source := Thousand();
    WholeIsValid(false, true);
    WholeIsValid(true, false);
    AttemptsSnoc(1, source, [], Whole(false, true));
    AttemptsSnoc(1, source, [] + [Whole(false, true)], Whole(true, false));
    WholePass(Durable({}, None));
    CrashedPass(AfterAttempts(1, source, [] + [Whole(false, true)]));
    LastComesAfter();
  }

  lemma LastComesAfter()
    ensures !NotBefore(Some(FormatCursor(Thousand()[999].key)), Some(FormatCursor(Thousand()[1000].key)))
  {
    CursorRoundTrip(Thousand()[999].key);
    CursorRoundTrip(Thousand()[1000].key);
  }

  /** A pass that completes leaves nothing from the boundary on unstored that the
      source had at its last query, wherever earlier passes were interrupted. */
  lemma CompletedPassHasAll(since: int, source: seq<Entity>, attempts: seq<Attempt>)
    requires ValidAttempts(source, attempts) && attempts != []
    ensures var before, a := attempts[..|attempts| - 1], attempts[|attempts| - 1];
      var w := World(source, a.seen, a.faults);
      var (d, end, _) := SyncPass(since, w, a.readable, AfterAttempts(since, source, before));
      end.Complete? ==>
        forall e :: e in View(w, end.query) && e.key.ts >= since ==> e in d.stored
  {
    var before, a := attempts[..|attempts| - 1], attempts[|attempts| - 1];
    var d, w := AfterAttempts(since, source, before), World(source, a.seen, a.faults);
    assert attempts[|attempts| - 1] == a;
    CursorNeverPassesStore(since, source, before);
    var saved := if a.readable then Ok(d.cursor) else Err;
    ResumeIsStored(source, since, saved, d);
    PassSafe(w, since, 0, Resume(since, saved), d);
  }
}
