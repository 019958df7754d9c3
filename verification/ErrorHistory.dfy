/** The capped error history of a chain, kept twice: in memory as a slice with the
    newest error last, in Redis as a list with the newest first. */
module ErrorHistory {
  import opened Outcomes

  datatype ErrorRecord = ErrorRecord(time: int, kind: string, text: string)

  const MAX_HISTORY: nat := 1000

  type Lists = map<string, seq<ErrorRecord>>

  /** The error lists and error counters of all chains. A chain without a progress
      record has no counter. */
  datatype History = History(lists: Lists, counts: map<string, nat>)

  function Of(lists: Lists, chain: string): seq<ErrorRecord> {
    if chain in lists then lists[chain] else []
  }

  function Count(h: History, chain: string): nat {
    if chain in h.counts then h.counts[chain] else 0
  }

  function Reversed<T>(s: seq<T>): (r: seq<T>)
    ensures |r| == |s|
    ensures forall i :: 0 <= i < |s| ==> r[i] == s[|s| - 1 - i]
  {
    seq(|s|, i requires 0 <= i < |s| => s[|s| - 1 - i])
  }

  function LastOf<T>(s: seq<T>, n: nat): seq<T> {
    if |s| <= n then s else s[|s| - n..]
  }

  function FirstOf<T>(s: seq<T>, n: nat): seq<T> {
    if |s| <= n then s else s[..n]
  }

  /** The errors after the cutoff, in the list's order. */
  function Newer(s: seq<ErrorRecord>, cutoff: int): seq<ErrorRecord> {
    if s == [] then []
    else
      var before, e := Newer(s[..|s| - 1], cutoff), s[|s| - 1];
      if e.time > cutoff then before + [e] else before
  }

  /** `counted`: Redis could read and write the chain's progress record for the
      error counter; a failure of that is ignored. */
  datatype Op =
    | Record(chain: string, error: ErrorRecord, counted: bool)
    | Clear(chain: string, counted: bool)
    | ResetChain(chain: string)
    | Prune(cutoff: int)
    | Progress(chain: string, count: nat)

  // ----- The two transition functions -----

  function MemoryStep(h: History, op: Op): History {
    match op
    case Record(c, e, _) =>
      History(h.lists[c := LastOf(Of(h.lists, c) + [e], MAX_HISTORY)],
              if c in h.counts then h.counts[c := h.counts[c] + 1] else h.counts)
    case Clear(c, _) => History(h.lists - {c}, if c in h.counts then h.counts[c := 0] else h.counts)
    case ResetChain(c) => History(h.lists - {c}, h.counts[c := 0])
    case Prune(cutoff) => h.(lists := map c | c in h.lists :: Newer(h.lists[c], cutoff))
    case Progress(c, n) => h.(counts := h.counts[c := n])
  }

  /** Pruning visits the chains that have a progress record. */
  function RedisStep(h: History, op: Op): History {
    match op
    case Record(c, e, counted) =>
      History(h.lists[c := FirstOf([e] + Of(h.lists, c), MAX_HISTORY)],
              if counted then h.counts[c := Count(h, c) + 1] else h.counts)
    case Clear(c, counted) => History(h.lists - {c}, if counted then h.counts[c := 0] else h.counts)
    case ResetChain(c) => History(h.lists - {c}, h.counts[c := 0])
    case Prune(cutoff) => h.(lists := map c | c in h.lists :: if c in h.counts then Newer(h.lists[c], cutoff) else h.lists[c])
    case Progress(c, n) => h.(counts := h.counts[c := n])
  }

  function MemoryRun(ops: seq<Op>): History {
    if ops == [] then History(map[], map[]) else MemoryStep(MemoryRun(ops[..|ops| - 1]), ops[|ops| - 1])
  }

  function RedisRun(ops: seq<Op>): History {
    if ops == [] then History(map[], map[]) else RedisStep(RedisRun(ops[..|ops| - 1]), ops[|ops| - 1])
  }

  /** The answer to a query with a limit; none when it is not positive. */
  function MemoryAnswer(h: History, chain: string, limit: int): seq<ErrorRecord> {
    if limit > 0 then LastOf(Of(h.lists, chain), limit) else Of(h.lists, chain)
  }

  function RedisAnswer(h: History, chain: string, limit: int): seq<ErrorRecord> {
    if limit > 0 then FirstOf(Of(h.lists, chain), limit) else Of(h.lists, chain)
  }

  // ----- One history -----

  lemma ReversedSnoc<T>(s: seq<T>, e: T)
    ensures Reversed(s + [e]) == [e] + Reversed(s)
  {
  }

  lemma ReversedLast<T>(s: seq<T>, n: nat)
    ensures Reversed(LastOf(s, n)) == FirstOf(Reversed(s), n)
  {
  }

  lemma ReversedRecord(s: seq<ErrorRecord>, e: ErrorRecord, n: nat)
    ensures Reversed(LastOf(s + [e], n)) == FirstOf([e] + Reversed(s), n)
  {
    ReversedLast(s + [e], n);
    ReversedSnoc(s, e);
  }

  lemma {:induction false} NewerFront(s: seq<ErrorRecord>, cutoff: int)
    requires s != []
    ensures Newer(s, cutoff) == (if s[0].time > cutoff then [s[0]] else []) + Newer(s[1..], cutoff)
  {
    if |s| > 1 {
      NewerFront(s[..|s| - 1], cutoff);
      assert s[..|s| - 1][1..] == s[1..][..|s| - 2];
    } else {
      assert s[..0] == [] && s[1..] == [];
    }
  }

  lemma {:induction false} ReversedNewer(s: seq<ErrorRecord>, cutoff: int)
    ensures Reversed(Newer(s, cutoff)) == Newer(Reversed(s), cutoff)
  {
    if s != [] {
      var n := |s| - 1;
      ReversedNewer(s[..n], cutoff);
      NewerFront(Reversed(s), cutoff);
      assert Reversed(s)[1..] == Reversed(s[..n]);
      var before := Newer(s[..n], cutoff);
      assert Reversed(before + [s[n]]) == [s[n]] + Reversed(before);
    }
  }

  lemma {:induction false} NewerShrinks(s: seq<ErrorRecord>, cutoff: int)
    ensures |Newer(s, cutoff)| <= |s|
  {
    if s != [] {
      NewerShrinks(s[..|s| - 1], cutoff);
    }
  }

  /** A chain's Redis list is its memory slice backwards. */
  ghost predicate Mirrors(memory: History, redis: History, chain: string) {
    Of(redis.lists, chain) == Reversed(Of(memory.lists, chain)) && |Of(memory.lists, chain)| <= MAX_HISTORY
  }

  /** Redis prunes this chain, or has nothing of it to prune. */
  ghost predicate Reaches(redis: History, chain: string, cutoff: int) {
    chain in redis.counts || Newer(Of(redis.lists, chain), cutoff) == Of(redis.lists, chain)
  }

  lemma ReversedTwice<T>(s: seq<T>)
    ensures Reversed(Reversed(s)) == s
  {
  }

  lemma PruneMirror(memory: History, redis: History, cutoff: int, chain: string)
    requires Mirrors(memory, redis, chain)
    ensures Mirrors(MemoryStep(memory, Prune(cutoff)), RedisStep(redis, Prune(cutoff)), chain) <==> Reaches(redis, chain, cutoff)
  {
    var list := Of(memory.lists, chain);
    ReversedNewer(list, cutoff);
    NewerShrinks(list, cutoff);
    ReversedTwice(list);
    ReversedTwice(Newer(list, cutoff));
    PrunedLists(memory, redis, cutoff, chain);
  }

  lemma PrunedLists(memory: History, redis: History, cutoff: int, chain: string)
    ensures Of(MemoryStep(memory, Prune(cutoff)).lists, chain) == Newer(Of(memory.lists, chain), cutoff)
    ensures Of(RedisStep(redis, Prune(cutoff)).lists, chain)
         == if chain in redis.counts then Newer(Of(redis.lists, chain), cutoff) else Of(redis.lists, chain)
  {
    assert Newer([], cutoff) == [];
  }

  /** Every operation keeps a chain mirrored, but for a pruning that does not reach
      its Redis list. */
  lemma MirrorStep(memory: History, redis: History, op: Op, chain: string)
    requires Mirrors(memory, redis, chain)
    ensures Mirrors(MemoryStep(memory, op), RedisStep(redis, op), chain) <==> (op.Prune? ==> Reaches(redis, chain, op.cutoff))
  {
    match op {
      case Record(_, e, _) => ReversedRecord(Of(memory.lists, chain), e, MAX_HISTORY);
      case Prune(cutoff) => PruneMirror(memory, redis, cutoff, chain);
      case _ =>
    }
  }

  /** Every pruning of the run reaches the chain's Redis list. */
  ghost predicate PrunesReach(ops: seq<Op>, chain: string) {
    forall i :: 0 <= i < |ops| && ops[i].Prune? ==> Reaches(RedisRun(ops[..i]), chain, ops[i].cutoff)
  }

  lemma PrunesReachBefore(ops: seq<Op>, chain: string)
    requires ops != [] && PrunesReach(ops, chain)
    ensures PrunesReach(ops[..|ops| - 1], chain)
  {
    var n := |ops| - 1;
    assert forall i :: 0 <= i < n ==> ops[..n][i] == ops[i] && ops[..n][..i] == ops[..i];
  }

  /** After the same operations a chain's Redis list is the memory slice backwards,
      and queries with any limit answer mutually reversed lists. */
  lemma {:induction false} OneHistory(ops: seq<Op>, chain: string, limit: int)
    requires PrunesReach(ops, chain)
    ensures Mirrors(MemoryRun(ops), RedisRun(ops), chain)
    ensures RedisAnswer(RedisRun(ops), chain, limit) == Reversed(MemoryAnswer(MemoryRun(ops), chain, limit))
  {
    if ops != [] {
      var n := |ops| - 1;
      PrunesReachBefore(ops, chain);
      OneHistory(ops[..n], chain, limit);
      MirrorStep(MemoryRun(ops[..n]), RedisRun(ops[..n]), ops[n], chain);
    }
    ReversedLast(Of(MemoryRun(ops).lists, chain), if limit > 0 then limit else 0);
  }

  ghost predicate AllCounted(ops: seq<Op>) {
    forall i :: 0 <= i < |ops| ==> (ops[i].Record? || ops[i].Clear?) ==> ops[i].counted
  }

  lemma {:induction false} ListedIsCounted(ops: seq<Op>, chain: string)
    requires AllCounted(ops)
    ensures chain in RedisRun(ops).lists ==> chain in RedisRun(ops).counts
  {
    if ops != [] {
      ListedIsCounted(ops[..|ops| - 1], chain);
    }
  }

  /** While Redis can read and write progress records, every pruning reaches every
      list, so the two histories are one. */
  lemma CountedPrunesReach(ops: seq<Op>, chain: string)
    requires AllCounted(ops)
    ensures PrunesReach(ops, chain)
  {
    forall i | 0 <= i < |ops| && ops[i].Prune? ensures Reaches(RedisRun(ops[..i]), chain, ops[i].cutoff) {
      ListedIsCounted(ops[..i], chain);
      assert Newer([], ops[i].cutoff) == [];
    }
  }

  /** A single unreadable progress record lets the histories part: the old error
      stays in Redis after a pruning that takes it from memory. */
  lemma MissedPrune(e: ErrorRecord)
    ensures var ops := [Record("chain", e, false), Prune(e.time)];
      Of(MemoryRun(ops).lists, "chain") == [] && Of(RedisRun(ops).lists, "chain") == [e]
  {
    var ops := [Record("chain", e, false), Prune(e.time)];
    assert ops[..1] == [ops[0]] && [ops[0]][..0] == [];
    assert [e][..0] == [];
    assert Of(MemoryRun([ops[0]]).lists, "chain") == [e];
    assert [e] + Of(map[], "chain") == [e];
    assert Of(RedisRun([ops[0]]).lists, "chain") == [e] && "chain" !in RedisRun([ops[0]]).counts;
    assert Newer([e], e.time) == [];
  }

  // ----- The two error counters -----

  /** The chain was given a progress record, which only a saved or a reset progress
      does in memory. */
  function HasRecord(ops: seq<Op>, chain: string): bool {
    ops != [] &&
    var op := ops[|ops| - 1];
    (HasRecord(ops[..|ops| - 1], chain) || ((op.Progress? || op.ResetChain?) && op.chain == chain))
  }

  /** The errors of the chain since they were last cleared. */
  function Uncleared(ops: seq<Op>, chain: string): nat {
    if ops == [] then 0
    else
      var before, op := Uncleared(ops[..|ops| - 1], chain), ops[|ops| - 1];
      if op.Record? && op.chain == chain then before + 1
      else if op.Clear? && op.chain == chain then 0
      else before
  }

  /** The two counters, given whether the chain has a progress record and how many of its
      errors are not cleared. */
  ghost predicate CountersAre(memory: History, redis: History, chain: string, has: bool, uncleared: nat) {
    && (chain in memory.counts <==> has)
    && if has then chain in redis.counts && redis.counts[chain] == memory.counts[chain] else Count(redis, chain) == uncleared
  }

  lemma CountersStep(memory: History, redis: History, op: Op, chain: string, has: bool, uncleared: nat)
    requires CountersAre(memory, redis, chain, has, uncleared)
    requires op.Record? || op.Clear? ==> op.counted
    ensures var own := !op.Prune? && op.chain == chain;
      CountersAre(MemoryStep(memory, op), RedisStep(redis, op), chain, has || ((op.Progress? || op.ResetChain?) && own),
                  if op.Record? && own then uncleared + 1 else if op.Clear? && own then 0 else uncleared)
  {
  }

  lemma {:induction false} CountersAfter(ops: seq<Op>, chain: string)
    requires AllCounted(ops)
    ensures CountersAre(MemoryRun(ops), RedisRun(ops), chain, HasRecord(ops, chain), Uncleared(ops, chain))
  {
    if ops != [] {
      var n := |ops| - 1;
      CountersAfter(ops[..n], chain);
      CountersStep(MemoryRun(ops[..n]), RedisRun(ops[..n]), ops[n], chain, HasRecord(ops[..n], chain), Uncleared(ops[..n], chain));
    }
  }

  /** After any operations the two error counters of a chain agree exactly when it
      has a progress record, or has none and no error since its errors were last
      cleared: memory does not count without a record, Redis makes one. */
  lemma CountersAgreeIff(ops: seq<Op>, chain: string)
    requires AllCounted(ops)
    ensures Count(MemoryRun(ops), chain) == Count(RedisRun(ops), chain)
       <==> HasRecord(ops, chain) || Uncleared(ops, chain) == 0
  {
    CountersAfter(ops, chain);
  }

  /** One error of a chain that has no progress record. */
  lemma CountersDiffer(e: ErrorRecord)
    ensures var ops := [Record("chain", e, true)];
      Count(MemoryRun(ops), "chain") == 0 && Count(RedisRun(ops), "chain") == 1
  {
    var ops := [Record("chain", e, true)];
    assert ops[..0] == [];
  }

  // ----- What is kept -----

  /** The same operations without a cap. */
  function Uncapped(ops: seq<Op>, chain: string): seq<ErrorRecord> {
    if ops == [] then []
    else
      var before := Uncapped(ops[..|ops| - 1], chain);
      match ops[|ops| - 1]
      case Record(c, e, _) => if c == chain then before + [e] else before
      case Clear(c, _) => if c == chain then [] else before
      case ResetChain(c) => if c == chain then [] else before
      case Prune(cutoff) => Newer(before, cutoff)
      case Progress(_, _) => before
  }

  ghost predicate InTimeOrder(s: seq<ErrorRecord>) {
    forall i, j :: 0 <= i < j < |s| ==> s[i].time <= s[j].time
  }

  lemma {:induction false} NewerIsTail(s: seq<ErrorRecord>, cutoff: int) returns (n: nat)
    requires InTimeOrder(s)
    ensures n <= |s| && Newer(s, cutoff) == s[n..]
    ensures forall i :: 0 <= i < n ==> s[i].time <= cutoff
    ensures forall i :: n <= i < |s| ==> s[i].time > cutoff
  {
    if s == [] {
      n := 0;
    } else {
      var k := |s| - 1;
      n := NewerIsTail(s[..k], cutoff);
      if s[k].time > cutoff {
        assert s[n..] == s[..k][n..] + [s[k]];
      } else {
        assert n == k;
        n := |s|;
      }
    }
  }

  lemma {:induction false} NewerAppend(a: seq<ErrorRecord>, b: seq<ErrorRecord>, cutoff: int)
    ensures Newer(a + b, cutoff) == Newer(a, cutoff) + Newer(b, cutoff)
  {
    if b == [] {
      assert a + b == a;
    } else {
      NewerAppend(a, b[..|b| - 1], cutoff);
      assert (a + b)[..|a + b| - 1] == a + b[..|b| - 1];
    }
  }

  lemma {:induction false} AllNewer(s: seq<ErrorRecord>, cutoff: int)
    requires forall i :: 0 <= i < |s| ==> s[i].time > cutoff
    ensures Newer(s, cutoff) == s
  {
    if s != [] {
      AllNewer(s[..|s| - 1], cutoff);
    }
  }

  lemma {:induction false} SomeNewer(s: seq<ErrorRecord>, cutoff: int)
    requires Newer(s, cutoff) != []
    ensures exists i :: 0 <= i < |s| && s[i].time > cutoff
  {
    if s[|s| - 1].time <= cutoff {
      SomeNewer(s[..|s| - 1], cutoff);
    }
  }

  lemma AfterDropped(dropped: seq<ErrorRecord>, last: seq<ErrorRecord>, cutoff: int)
    requires InTimeOrder(dropped + last) && Newer(dropped, cutoff) != []
    ensures Newer(last, cutoff) == last
  {
    SomeNewer(dropped, cutoff);
    var i :| 0 <= i < |dropped| && dropped[i].time > cutoff;
    var s := dropped + last;
    forall j | 0 <= j < |last| ensures last[j].time > cutoff {
      assert s[i] == dropped[i] && s[|dropped| + j] == last[j];
    }
    AllNewer(last, cutoff);
  }

  /** Pruning a capped list is capping a pruned one. */
  lemma LastThenNewer(s: seq<ErrorRecord>, cutoff: int, n: nat)
    requires InTimeOrder(s)
    ensures Newer(LastOf(s, n), cutoff) == LastOf(Newer(s, cutoff), n)
  {
    NewerShrinks(s, cutoff);
    if n < |s| {
      var dropped, last := s[..|s| - n], s[|s| - n..];
      assert s == dropped + last;
      NewerAppend(dropped, last, cutoff);
      NewerShrinks(last, cutoff);
      if Newer(dropped, cutoff) != [] {
        AfterDropped(dropped, last, cutoff);
      }
      LastOfBoth(Newer(dropped, cutoff), Newer(last, cutoff), n);
    }
  }

  lemma LastOfBoth<T>(a: seq<T>, b: seq<T>, n: nat)
    requires |b| <= n && (a == [] || |b| == n)
    ensures LastOf(a + b, n) == b
  {
    if a == [] {
      assert [] + b == b;
    }
  }

  ghost predicate ClockMonotone(ops: seq<Op>) {
    forall i, j :: 0 <= i < j < |ops| && ops[i].Record? && ops[j].Record? ==> ops[i].error.time <= ops[j].error.time
  }

  ghost predicate Recorded(e: ErrorRecord, ops: seq<Op>) {
    exists j :: 0 <= j < |ops| && ops[j].Record? && ops[j].error == e
  }

  ghost predicate AllRecorded(s: seq<ErrorRecord>, ops: seq<Op>) {
    forall i :: 0 <= i < |s| ==> Recorded(s[i], ops)
  }

  lemma RecordedLater(s: seq<ErrorRecord>, ops: seq<Op>)
    requires ops != [] && AllRecorded(s, ops[..|ops| - 1])
    ensures AllRecorded(s, ops)
  {
    forall i | 0 <= i < |s| ensures Recorded(s[i], ops) {
      var before := ops[..|ops| - 1];
      assert Recorded(s[i], before);
      var j :| 0 <= j < |before| && before[j].Record? && before[j].error == s[i];
      assert ops[j] == before[j];
    }
  }

  lemma {:induction false} UncappedInOrder(ops: seq<Op>, chain: string)
    requires ClockMonotone(ops)
    ensures InTimeOrder(Uncapped(ops, chain)) && AllRecorded(Uncapped(ops, chain), ops)
  {
    if ops != [] {
      var n := |ops| - 1;
      var before := Uncapped(ops[..n], chain);
      UncappedInOrder(ops[..n], chain);
      RecordedLater(before, ops);
      forall i | 0 <= i < |before| && ops[n].Record? ensures before[i].time <= ops[n].error.time {
        assert Recorded(before[i], ops[..n]);
      }
      assert ops[n].Record? ==> Recorded(ops[n].error, ops);
      if ops[n].Prune? {
        var k := NewerIsTail(before, ops[n].cutoff);
      }
    }
  }

  lemma LastSnoc(s: seq<ErrorRecord>, e: ErrorRecord, n: nat)
    requires n > 0
    ensures LastOf(LastOf(s, n) + [e], n) == LastOf(s + [e], n)
  {
  }

  lemma KeptStep(h: History, all: seq<ErrorRecord>, op: Op, chain: string)
    requires Of(h.lists, chain) == LastOf(all, MAX_HISTORY) && InTimeOrder(all)
    ensures op.Record? && op.chain == chain ==> Of(MemoryStep(h, op).lists, chain) == LastOf(all + [op.error], MAX_HISTORY)
    ensures op.Record? && op.chain != chain ==> Of(MemoryStep(h, op).lists, chain) == LastOf(all, MAX_HISTORY)
    ensures op.Prune? ==> Of(MemoryStep(h, op).lists, chain) == LastOf(Newer(all, op.cutoff), MAX_HISTORY)
  {
    match op {
      case Record(_, e, _) => LastSnoc(all, e, MAX_HISTORY);
      case Prune(cutoff) =>
        LastThenNewer(all, cutoff, MAX_HISTORY);
        assert Newer([], cutoff) == [];
      case _ =>
    }
  }

  lemma {:induction false} CapAtTheEnd(ops: seq<Op>, chain: string)
    requires ClockMonotone(ops)
    ensures Of(MemoryRun(ops).lists, chain) == LastOf(Uncapped(ops, chain), MAX_HISTORY)
  {
    if ops != [] {
      var n := |ops| - 1;
      CapAtTheEnd(ops[..n], chain);
      UncappedInOrder(ops[..n], chain);
      KeptStep(MemoryRun(ops[..n]), Uncapped(ops[..n], chain), ops[n], chain);
    }
  }

  /** With a clock that does not go back, memory keeps the newest errors of those
      that would survive without the cap, */
  lemma MemoryKeepsNewest(ops: seq<Op>, chain: string)
    requires ClockMonotone(ops)
    ensures var all := Uncapped(ops, chain);
      Of(MemoryRun(ops).lists, chain) == if |all| <= 1000 then all else all[|all| - 1000..]
  {
    CapAtTheEnd(ops, chain);
  }

  /** and so does Redis, backwards, when every pruning reaches its list. */
  lemma NewestAreKept(ops: seq<Op>, chain: string)
    requires ClockMonotone(ops) && PrunesReach(ops, chain)
    ensures var all := Uncapped(ops, chain);
      var kept := if |all| <= 1000 then all else all[|all| - 1000..];
      Of(MemoryRun(ops).lists, chain) == kept && Of(RedisRun(ops).lists, chain) == Reversed(kept)
  {
    CapAtTheEnd(ops, chain);
    OneHistory(ops, chain, 0);
  }

  /** Asked for so many errors, both answer with that many of the newest, up to a
      thousand; asked for none in particular, with all they keep. */
  lemma NewestAreAnswered(ops: seq<Op>, chain: string, limit: int)
    requires ClockMonotone(ops) && PrunesReach(ops, chain)
    ensures var all := Uncapped(ops, chain);
      var n := if 0 < limit < 1000 then limit else 1000;
      var newest := if |all| <= n then all else all[|all| - n..];
      && MemoryAnswer(MemoryRun(ops), chain, limit) == newest
      && RedisAnswer(RedisRun(ops), chain, limit) == Reversed(newest)
  {
    CapAtTheEnd(ops, chain);
    OneHistory(ops, chain, limit);
  }

  // ----- When the two lists agree -----

  /** An error is recorded after every cutoff computed before it. */
  ghost predicate CutoffsPast(ops: seq<Op>) {
    forall i, j :: 0 <= i < j < |ops| && ops[i].Prune? && ops[j].Record? ==> ops[i].cutoff < ops[j].error.time
  }

  /** The newest cutoff of all prunings. */
  function LatestCutoff(ops: seq<Op>): Option<int> {
    if ops == [] then None
    else
      var before, op := LatestCutoff(ops[..|ops| - 1]), ops[|ops| - 1];
      if op.Prune? && (before.None? || before.value < op.cutoff) then Some(op.cutoff) else before
  }

  function Unpruned(s: seq<ErrorRecord>, cutoff: Option<int>): seq<ErrorRecord> {
    if cutoff.Some? then Newer(s, cutoff.value) else s
  }

  lemma {:induction false} NewerTwice(s: seq<ErrorRecord>, a: int, b: int)
    ensures Newer(Newer(s, a), b) == Newer(s, if a < b then b else a)
  {
    if s != [] {
      var n := |s| - 1;
      NewerTwice(s[..n], a, b);
      assert (Newer(s[..n], a) + [s[n]])[..|Newer(s[..n], a)|] == Newer(s[..n], a);
    }
  }

  lemma {:induction false} NewerAreNewer(s: seq<ErrorRecord>, cutoff: int)
    ensures forall i :: 0 <= i < |Newer(s, cutoff)| ==> Newer(s, cutoff)[i].time > cutoff
  {
    if s != [] {
      NewerAreNewer(s[..|s| - 1], cutoff);
    }
  }

  lemma {:induction false} CutoffIsPast(ops: seq<Op>, e: ErrorRecord)
    requires forall i :: 0 <= i < |ops| && ops[i].Prune? ==> ops[i].cutoff < e.time
    ensures LatestCutoff(ops).Some? ==> LatestCutoff(ops).value < e.time
  {
    if ops != [] {
      CutoffIsPast(ops[..|ops| - 1], e);
    }
  }

  /** A newest error, past the cutoff. */
  lemma UnprunedRecord(s: seq<ErrorRecord>, e: ErrorRecord, cutoff: Option<int>, n: nat)
    requires InTimeOrder(s + [e]) && (cutoff.Some? ==> cutoff.value < e.time)
    ensures LastOf(Unpruned(s, cutoff) + [e], n) == Unpruned(LastOf(s + [e], n), cutoff)
  {
    if cutoff.Some? {
      assert (s + [e])[..|s|] == s;
      LastThenNewer(s + [e], cutoff.value, n);
    }
  }

  lemma InOrderLast(s: seq<ErrorRecord>, n: nat)
    requires InTimeOrder(s)
    ensures InTimeOrder(LastOf(s, n))
  {
  }

  lemma InOrderNewer(s: seq<ErrorRecord>, cutoff: int)
    requires InTimeOrder(s)
    ensures InTimeOrder(Newer(s, cutoff)) && forall e :: e in Newer(s, cutoff) ==> e in s
  {
    var n := NewerIsTail(s, cutoff);
  }

  /** The Redis list, oldest first. */
  function RedisErrors(ops: seq<Op>, chain: string): seq<ErrorRecord> {
    Reversed(Of(RedisRun(ops).lists, chain))
  }

  lemma RedisErrorsStep(ops: seq<Op>, chain: string)
    requires ops != []
    ensures var before, op := RedisErrors(ops[..|ops| - 1], chain), ops[|ops| - 1];
      RedisErrors(ops, chain) ==
        match op
        case Record(c, e, _) => if c == chain then LastOf(before + [e], MAX_HISTORY) else before
        case Clear(c, _) => if c == chain then [] else before
        case ResetChain(c) => if c == chain then [] else before
        case Prune(cutoff) => if chain in RedisRun(ops[..|ops| - 1]).counts then Newer(before, cutoff) else before
        case Progress(_, _) => before
  {
    var h, op := RedisRun(ops[..|ops| - 1]), ops[|ops| - 1];
    var before := RedisErrors(ops[..|ops| - 1], chain);
    ReversedTwice(Of(h.lists, chain));
    match op {
      case Record(_, e, _) =>
        ReversedRecord(before, e, MAX_HISTORY);
        ReversedTwice(LastOf(before + [e], MAX_HISTORY));
      case Prune(cutoff) =>
        ReversedNewer(Of(h.lists, chain), cutoff);
        PrunedLists(h, h, cutoff, chain);
      case _ =>
    }
  }

  lemma RecordedPart(s: seq<ErrorRecord>, all: seq<ErrorRecord>, ops: seq<Op>)
    requires AllRecorded(all, ops) && forall i :: 0 <= i < |s| ==> s[i] in all
    ensures AllRecorded(s, ops)
  {
    forall i | 0 <= i < |s| ensures Recorded(s[i], ops) {
      assert s[i] in all;
      var j :| 0 <= j < |all| && all[j] == s[i];
      assert Recorded(all[j], ops);
    }
  }

  /** What is in the Redis list was recorded, in time order. */
  lemma {:induction false} RedisInOrder(ops: seq<Op>, chain: string)
    requires ClockMonotone(ops)
    ensures InTimeOrder(RedisErrors(ops, chain)) && AllRecorded(RedisErrors(ops, chain), ops)
  {
    if ops != [] {
      var n := |ops| - 1;
      var before := RedisErrors(ops[..n], chain);
      RedisInOrder(ops[..n], chain);
      RedisErrorsStep(ops, chain);
      RecordedLater(before, ops);
      match ops[n] {
        case Record(c, e, _) => OneMoreInOrder(before, ops);
        case Prune(cutoff) =>
          InOrderNewer(before, cutoff);
          RecordedPart(Newer(before, cutoff), before, ops);
        case _ =>
      }
    }
  }

  lemma OneMoreInOrder(s: seq<ErrorRecord>, ops: seq<Op>)
    requires ops != [] && ops[|ops| - 1].Record? && ClockMonotone(ops)
    requires InTimeOrder(s) && AllRecorded(s, ops[..|ops| - 1]) && AllRecorded(s, ops)
    ensures var kept := LastOf(s + [ops[|ops| - 1].error], MAX_HISTORY); InTimeOrder(kept) && AllRecorded(kept, ops)
  {
    var more := s + [ops[|ops| - 1].error];
    RecordedInOrder(s, ops);
    InOrderLast(more, MAX_HISTORY);
    forall i | 0 <= i < |more| ensures Recorded(more[i], ops) {
      assert i < |s| ==> more[i] == s[i];
    }
    RecordedPart(LastOf(more, MAX_HISTORY), more, ops);
  }

  lemma RecordedInOrder(s: seq<ErrorRecord>, ops: seq<Op>)
    requires ops != [] && ops[|ops| - 1].Record? && ClockMonotone(ops)
    requires InTimeOrder(s) && AllRecorded(s, ops[..|ops| - 1])
    ensures InTimeOrder(s + [ops[|ops| - 1].error]) && Recorded(ops[|ops| - 1].error, ops)
  {
    var n := |ops| - 1;
    forall i | 0 <= i < |s| ensures s[i].time <= ops[n].error.time {
      assert Recorded(s[i], ops[..n]);
    }
  }

  /** In every run, whatever prunings missed the Redis list: the memory list is what the
      newest cutoff leaves of it, in the opposite order. */
  lemma {:induction false} MemoryIsPrunedRedis(ops: seq<Op>, chain: string)
    requires ClockMonotone(ops) && CutoffsPast(ops)
    ensures Of(MemoryRun(ops).lists, chain) == Unpruned(RedisErrors(ops, chain), LatestCutoff(ops))
  {
    if ops != [] {
      var n := |ops| - 1;
      MemoryIsPrunedRedis(ops[..n], chain);
      if ops[n].Record? {
        RecordedUnpruned(ops, chain);
      } else if ops[n].Prune? {
        MissedOrNot(ops, chain);
      } else {
        RedisErrorsStep(ops, chain);
      }
    }
  }

  lemma RecordedUnpruned(ops: seq<Op>, chain: string)
    requires ops != [] && ops[|ops| - 1].Record? && ClockMonotone(ops) && CutoffsPast(ops)
    requires var before := ops[..|ops| - 1]; Of(MemoryRun(before).lists, chain) == Unpruned(RedisErrors(before, chain), LatestCutoff(before))
    ensures Of(MemoryRun(ops).lists, chain) == Unpruned(RedisErrors(ops, chain), LatestCutoff(ops))
  {
    var n := |ops| - 1;
    var before, e := RedisErrors(ops[..n], chain), ops[n].error;
    RedisErrorsStep(ops, chain);
    RedisInOrder(ops[..n], chain);
    RecordedInOrder(before, ops);
    CutoffIsPast(ops[..n], e);
    UnprunedRecord(before, e, LatestCutoff(ops[..n]), MAX_HISTORY);
  }

  lemma PrunedEither(errors: seq<ErrorRecord>, latest: Option<int>, cutoff: int)
    ensures var now := Some(if latest.None? || latest.value < cutoff then cutoff else latest.value);
      Newer(Unpruned(errors, latest), cutoff) == Unpruned(errors, now) == Unpruned(Newer(errors, cutoff), now)
  {
    NewerTwice(errors, cutoff, if latest.None? || latest.value < cutoff then cutoff else latest.value);
    if latest.Some? {
      NewerTwice(errors, latest.value, cutoff);
    }
  }

  lemma MissedOrNot(ops: seq<Op>, chain: string)
    requires ops != [] && ops[|ops| - 1].Prune?
    requires var before := ops[..|ops| - 1]; Of(MemoryRun(before).lists, chain) == Unpruned(RedisErrors(before, chain), LatestCutoff(before))
    ensures Of(MemoryRun(ops).lists, chain) == Unpruned(RedisErrors(ops, chain), LatestCutoff(ops))
  {
    var before, cutoff := ops[..|ops| - 1], ops[|ops| - 1].cutoff;
    RedisErrorsStep(ops, chain);
    PrunedLists(MemoryRun(before), MemoryRun(before), cutoff, chain);
    PrunedEither(RedisErrors(before, chain), LatestCutoff(before), cutoff);
  }

  /** So the two lists agree at the end of a run exactly when Redis holds no error that
      the newest cutoff should have removed: no pruning missed it, or a later operation
      removed it. */
  lemma ListsAgreeIff(ops: seq<Op>, chain: string)
    requires ClockMonotone(ops) && CutoffsPast(ops)
    ensures Of(RedisRun(ops).lists, chain) == Reversed(Of(MemoryRun(ops).lists, chain))
       <==> forall e :: e in Of(RedisRun(ops).lists, chain) && LatestCutoff(ops).Some? ==> e.time > LatestCutoff(ops).value
  {
    MemoryIsPrunedRedis(ops, chain);
    AgreeIff(Of(RedisRun(ops).lists, chain), Of(MemoryRun(ops).lists, chain), LatestCutoff(ops));
  }

  lemma AgreeIff(list: seq<ErrorRecord>, memory: seq<ErrorRecord>, cutoff: Option<int>)
    requires memory == Unpruned(Reversed(list), cutoff)
    ensures list == Reversed(memory) <==> forall e :: e in list && cutoff.Some? ==> e.time > cutoff.value
  {
    var errors := Reversed(list);
    ReversedTwice(list);
    ReversedTwice(memory);
    ReversedMembers(list);
    UnprunedIff(errors, cutoff);
    assert list == Reversed(memory) <==> errors == memory;
  }

  lemma ReversedMembers<T>(s: seq<T>)
    ensures forall e :: e in s <==> e in Reversed(s)
  {
    var r := Reversed(s);
    forall e | e in s ensures e in r {
      var i :| 0 <= i < |s| && s[i] == e;
      assert r[|s| - 1 - i] == e;
    }
  }

  lemma UnprunedIff(s: seq<ErrorRecord>, cutoff: Option<int>)
    ensures Unpruned(s, cutoff) == s <==> forall e :: e in s && cutoff.Some? ==> e.time > cutoff.value
  {
    if cutoff.Some? {
      NewerAreNewer(s, cutoff.value);
      if forall e :: e in s ==> e.time > cutoff.value {
        AllNewer(s, cutoff.value);
      }
    }
  }

  // ----- The two trackers -----

  method FilterNewer(s: seq<ErrorRecord>, cutoff: int) returns (kept: seq<ErrorRecord>)
    ensures kept == Newer(s, cutoff)
  {
    kept := [];
    for i := 0 to |s|
      invariant kept == Newer(s[..i], cutoff)
    {
      assert s[..i + 1][..i] == s[..i];
      if s[i].time > cutoff {
        kept := kept + [s[i]];
      }
    }
    assert s[..|s|] == s;
  }

  class MemoryProgressTracker {
    var errors: Lists
    var counts: map<string, nat>

    ghost function State(): History
      reads this
    {
      History(errors, counts)
    }

    constructor ()
      ensures State() == MemoryRun([])
    {
      errors, counts := map[], map[];
    }

    method RecordError(chain: string, error: Option<ErrorRecord>)
      modifies this
      ensures State() == if error.None? then old(State()) else MemoryStep(old(State()), Record(chain, error.value, true))
    {
      if error.None? {
        return;
      }
      var list := (if chain in errors then errors[chain] else []) + [error.value];
      if |list| > MAX_HISTORY {
        list := list[|list| - MAX_HISTORY..];
      }
      errors := errors[chain := list];
      if chain in counts {
        counts := counts[chain := counts[chain] + 1];
      }
    }

    method GetErrorHistory(chain: string, limit: int) returns (r: seq<ErrorRecord>)
      ensures r == MemoryAnswer(State(), chain, limit)
    {
      if chain !in errors {
        return [];
      }
      r := errors[chain];
      if limit > 0 && |r| > limit {
        r := r[|r| - limit..];
      }
    }

    method ClearErrorHistory(chain: string)
      modifies this
      ensures State() == MemoryStep(old(State()), Clear(chain, true))
    {
      errors := errors - {chain};
      if chain in counts {
        counts := counts[chain := 0];
      }
    }

    method Cleanup(cutoff: int)
      modifies this`errors
      ensures State() == MemoryStep(old(State()), Prune(cutoff))
    {
      var rest := errors.Keys;
      while rest != {}
        invariant rest <= errors.Keys && errors.Keys == old(errors).Keys
        invariant forall c :: c in errors ==> errors[c] == if c in rest then old(errors)[c] else Newer(old(errors)[c], cutoff)
        decreases rest
      {
        var c :| c in rest;
        rest := rest - {c};
        var kept := FilterNewer(errors[c], cutoff);
        errors := errors[c := kept];
      }
    }
  }

  class RedisProgressTracker {
    var lists: Lists
    var counts: map<string, nat>

    ghost function State(): History
      reads this
    {
      History(lists, counts)
    }

    constructor ()
      ensures State() == RedisRun([])
    {
      lists, counts := map[], map[];
    }

    method LPush(chain: string, e: ErrorRecord)
      modifies this`lists
      ensures lists == old(lists)[chain := [e] + Of(old(lists), chain)]
    {
      lists := lists[chain := [e] + if chain in lists then lists[chain] else []];
    }

    /** Keeps the elements from 0 to `stop`, both included. */
    method LTrim(chain: string, stop: nat)
      requires chain in lists
      modifies this`lists
      ensures lists == old(lists)[chain := FirstOf(Of(old(lists), chain), stop + 1)]
    {
      var s := lists[chain];
      lists := lists[chain := if |s| <= stop + 1 then s else s[..stop + 1]];
    }

    method RecordError(chain: string, error: Option<ErrorRecord>, counted: bool)
      modifies this
      ensures State() == if error.None? then old(State()) else RedisStep(old(State()), Record(chain, error.value, counted))
    {
      if error.None? {
        return;
      }
      LPush(chain, error.value);
      LTrim(chain, MAX_HISTORY - 1);
      if counted {
        counts := counts[chain := (if chain in counts then counts[chain] else 0) + 1];
      }
    }

    method GetErrorHistory(chain: string, limit: int) returns (r: seq<ErrorRecord>)
      ensures r == RedisAnswer(State(), chain, limit)
    {
      r := if chain in lists then lists[chain] else [];
      if limit > 0 && |r| > limit {
        r := r[..limit];
      }
    }

    method ClearErrorHistory(chain: string, counted: bool)
      modifies this
      ensures State() == RedisStep(old(State()), Clear(chain, counted))
    {
      lists := lists - {chain};
      if counted {
        counts := counts[chain := 0];
      }
    }

    /** Filters a list by deleting it and pushing what is kept back, oldest first;
        a list that loses nothing is left alone. */
    method CleanupList(chain: string, cutoff: int)
      requires chain in lists
      modifies this`lists
      ensures forall c :: Of(lists, c) == if c == chain then Newer(Of(old(lists), c), cutoff) else Of(old(lists), c)
    {
      var data := lists[chain];
      var kept := FilterNewer(data, cutoff);
      if |kept| == |data| {
        NothingDropped(data, cutoff);
        return;
      }
      lists := lists - {chain};
      var i := |kept|;
      while i > 0
        invariant 0 <= i <= |kept|
        invariant forall c :: Of(lists, c) == if c == chain then kept[i..] else Of(old(lists), c)
      {
        i := i - 1;
        LPush(chain, kept[i]);
        assert kept[i..] == [kept[i]] + kept[i + 1..];
      }
    }

    /** Visits the chains that have a progress record. */
    method Cleanup(cutoff: int)
      modifies this`lists
      ensures forall c :: Of(lists, c) == Of(RedisStep(old(State()), Prune(cutoff)).lists, c)
      ensures counts == old(counts)
    {
      var rest := counts.Keys;
      assert Newer([], cutoff) == [];
      while rest != {}
        invariant rest <= counts.Keys
        invariant forall c ::
          Of(lists, c) == (if c in counts && c !in rest then Newer(Of(old(lists), c), cutoff) else Of(old(lists), c))
        decreases rest
      {
        var c :| c in rest;
        rest := rest - {c};
        if c in lists {
          CleanupList(c, cutoff);
        } else {
          assert Of(lists, c) == [];
        }
      }
    }
  }

  lemma {:induction false} NothingDropped(s: seq<ErrorRecord>, cutoff: int)
    requires |Newer(s, cutoff)| == |s|
    ensures Newer(s, cutoff) == s
  {
    if s != [] {
      NewerShrinks(s[..|s| - 1], cutoff);
      NothingDropped(s[..|s| - 1], cutoff);
    }
  }
}
