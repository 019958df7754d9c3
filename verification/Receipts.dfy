/** Concurrent receipt fetching: one goroutine a transaction, a semaphore, a
    channel as large as the number of goroutines, results collected by index. */
module Receipts {
  import opened Outcomes

  const MAX_TRANSACTIONS: nat := 200
  const PERMITS: nat := 15

  /** How many transactions of a block are fetched. */
  function Fetched(blockSize: nat): nat {
    if blockSize > MAX_TRANSACTIONS then MAX_TRANSACTIONS else blockSize
  }

  // ----- The goroutines -----

  /** A goroutine waits for a permit, fetches with one, sends its result while
      still holding it, and gives it back. */
  datatype Phase = Waiting | Fetching | Sent | Done

  datatype Fetch<R> = Fetch(phases: seq<Phase>, channel: seq<(nat, R)>, received: seq<(nat, R)>)

  datatype Event = Acquire(i: nat) | Send(i: nat) | Release(i: nat) | Receive

  function Start<R>(n: nat): Fetch<R> {
    Fetch(seq(n, _ => Waiting), [], [])
  }

  function Holding(phases: seq<Phase>): nat {
    if phases == [] then 0
    else Holding(phases[..|phases| - 1]) + if phases[|phases| - 1].Fetching? || phases[|phases| - 1].Sent? then 1 else 0
  }

  predicate Enabled<R>(f: Fetch<R>, e: Event) {
    match e
    case Acquire(i) => i < |f.phases| && f.phases[i].Waiting? && Holding(f.phases) < PERMITS
    case Send(i) => i < |f.phases| && f.phases[i].Fetching? && |f.channel| < |f.phases|
    case Release(i) => i < |f.phases| && f.phases[i].Sent?
    case Receive => f.channel != [] && |f.received| < |f.phases|
  }

  /** `answers[i]` is what the node answers for transaction i; an event that cannot
      happen changes nothing. */
  function Next<R>(answers: seq<R>, f: Fetch<R>, e: Event): Fetch<R>
    requires |answers| == |f.phases|
  {
    if !Enabled(f, e) then f
    else
      match e
      case Acquire(i) => f.(phases := f.phases[i := Fetching])
      case Send(i) => f.(phases := f.phases[i := Sent], channel := f.channel + [(i, answers[i])])
      case Release(i) => f.(phases := f.phases[i := Done])
      case Receive => f.(channel := f.channel[1..], received := f.received + [f.channel[0]])
  }

  function Run<R>(answers: seq<R>, events: seq<Event>): (f: Fetch<R>)
    ensures |f.phases| == |answers|
  {
    if events == [] then Start(|answers|)
    else Next(answers, Run(answers, events[..|events| - 1]), events[|events| - 1])
  }

  /** Results sent so far, in the order they were sent. */
  function SentResults<R>(f: Fetch<R>): seq<(nat, R)> {
    f.received + f.channel
  }

  ghost predicate Delivered<R>(sent: seq<(nat, R)>, i: nat) {
    exists k :: 0 <= k < |sent| && sent[k].0 == i
  }

  ghost predicate Inv<R>(answers: seq<R>, f: Fetch<R>) {
    && |f.phases| == |answers|
    && Holding(f.phases) <= PERMITS
    && (forall k :: 0 <= k < |SentResults(f)| ==>
          SentResults(f)[k].0 < |answers| && SentResults(f)[k].1 == answers[SentResults(f)[k].0])
    && (forall j, k :: 0 <= j < k < |SentResults(f)| ==> SentResults(f)[j].0 != SentResults(f)[k].0)
    && forall i :: 0 <= i < |answers| ==> ((f.phases[i].Sent? || f.phases[i].Done?) <==> Delivered(SentResults(f), i))
  }

  lemma {:induction false} HoldingUpdate(phases: seq<Phase>, i: nat, p: Phase)
    requires i < |phases|
    ensures Holding(phases[i := p]) - (if p.Fetching? || p.Sent? then 1 else 0)
         == Holding(phases) - (if phases[i].Fetching? || phases[i].Sent? then 1 else 0)
  {
    var n := |phases| - 1;
    if i < n {
      HoldingUpdate(phases[..n], i, p);
      assert phases[i := p][..n] == phases[..n][i := p];
    } else {
      assert phases[i := p][..n] == phases[..n];
    }
  }

  lemma {:induction false} NobodyHolds(n: nat)
    ensures Holding(seq(n, _ => Waiting)) == 0
  {
    if n > 0 {
      NobodyHolds(n - 1);
      assert seq(n, _ => Waiting)[..n - 1] == seq(n - 1, _ => Waiting);
    }
  }

  lemma DeliveredSnoc<R>(sent: seq<(nat, R)>, x: (nat, R), i: nat)
    ensures Delivered(sent + [x], i) <==> Delivered(sent, i) || x.0 == i
  {
    assert (sent + [x])[|sent|] == x;
    if Delivered(sent, i) {
      var k :| 0 <= k < |sent| && sent[k].0 == i;
      assert (sent + [x])[k] == sent[k];
    }
  }

  lemma StepInv<R>(answers: seq<R>, f: Fetch<R>, e: Event)
    requires Inv(answers, f)
    ensures Inv(answers, Next(answers, f, e))
  {
    var f' := Next(answers, f, e);
    if Enabled(f, e) {
      match e {
        case Acquire(i) => HoldingUpdate(f.phases, i, Fetching);
        case Send(i) =>
          HoldingUpdate(f.phases, i, Sent);
          var x := (i, answers[i]);
          assert SentResults(f') == SentResults(f) + [x];
          assert !Delivered(SentResults(f), i);
          forall j | 0 <= j < |answers|
            ensures (f'.phases[j].Sent? || f'.phases[j].Done?) <==> Delivered(SentResults(f'), j)
          {
            DeliveredSnoc(SentResults(f), x, j);
          }
        case Release(i) => HoldingUpdate(f.phases, i, Done);
        case Receive => assert SentResults(f') == SentResults(f);
      }
    }
  }

  lemma {:induction false} RunInv<R>(answers: seq<R>, events: seq<Event>)
    ensures Inv(answers, Run(answers, events))
  {
    if events == [] {
      NobodyHolds(|answers|);
    } else {
      RunInv(answers, events[..|events| - 1]);
      StepInv(answers, Run(answers, events[..|events| - 1]), events[|events| - 1]);
    }
  }

  /** The goroutines between taking a permit and giving it back. */
  ghost function Holders(phases: seq<Phase>): set<nat> {
    set i: nat | i < |phases| && (phases[i].Fetching? || phases[i].Sent?)
  }

  lemma {:induction false} HoldingIsCount(phases: seq<Phase>)
    ensures Holding(phases) == |Holders(phases)|
  {
    if phases != [] {
      var n := |phases| - 1;
      HoldingIsCount(phases[..n]);
      if phases[n].Fetching? || phases[n].Sent? {
        assert Holders(phases) == Holders(phases[..n]) + {n};
      } else {
        assert Holders(phases) == Holders(phases[..n]);
      }
    }
  }

  /** In every interleaving at most fifteen goroutines hold the semaphore, a waiting one
      can take a permit exactly while fewer do, and no result is delivered twice or for
      another transaction. */
  lemma AtMostFifteen<R>(answers: seq<R>, events: seq<Event>)
    ensures var f := Run(answers, events);
      && |Holders(f.phases)| <= 15
      && (forall i: nat :: i < |f.phases| && f.phases[i].Waiting? ==> (Enabled(f, Acquire(i)) <==> |Holders(f.phases)| < 15))
      && Arrivals(f.received, answers)
  {
    RunInv(answers, events);
    var f := Run(answers, events);
    HoldingIsCount(f.phases);
    assert forall k :: 0 <= k < |f.received| ==> SentResults(f)[k] == f.received[k];
  }

  lemma {:induction false} SomebodyActive(phases: seq<Phase>)
    requires Holding(phases) > 0
    ensures exists i: nat :: i < |phases| && (phases[i].Fetching? || phases[i].Sent?)
  {
    var n := |phases| - 1;
    if phases[n].Fetching? || phases[n].Sent? {
    } else {
      SomebodyActive(phases[..n]);
      var i: nat :| i < n && (phases[..n][i].Fetching? || phases[..n][i].Sent?);
      assert phases[i] == phases[..n][i];
    }
  }

  ghost predicate Missing<R>(sent: seq<(nat, R)>, n: nat) {
    exists i: nat :: i < n && !Delivered(sent, i)
  }

  /** Fewer results than goroutines leave some goroutine without a result. */
  lemma {:induction false} FewResults<R>(sent: seq<(nat, R)>, n: nat)
    requires |sent| < n
    ensures Missing(sent, n)
  {
    if forall i: nat :: i < n ==> Delivered(sent, i) {
      var ids := set k | 0 <= k < |sent| :: sent[k].0;
      IdsSize(sent, ids);
      var all := Numbers(n);
      forall i | i in all ensures i in ids {
        assert Delivered(sent, i);
      }
      SubsetSize(all, ids);
      assert false;
    }
  }

  lemma {:induction false} IdsSize<R>(sent: seq<(nat, R)>, ids: set<nat>)
    requires ids == set k | 0 <= k < |sent| :: sent[k].0
    ensures |ids| <= |sent|
  {
    if sent != [] {
      var n := |sent| - 1;
      var before := set k | 0 <= k < n :: sent[..n][k].0;
      IdsSize(sent[..n], before);
      forall x | x in ids ensures x in before + {sent[n].0} {
        var k :| 0 <= k < |sent| && sent[k].0 == x;
        assert k < n ==> sent[..n][k].0 == x;
      }
      SubsetSize(ids, before + {sent[n].0});
    }
  }

  function Numbers(n: nat): (s: set<nat>)
    ensures |s| == n
    ensures forall i: nat :: i in s <==> i < n
  {
    if n == 0 then {} else Numbers(n - 1) + {n - 1}
  }

  lemma {:induction false} SubsetSize(a: set<nat>, b: set<nat>)
    requires a <= b
    ensures |a| <= |b|
  {
    if a != {} {
      var x :| x in a;
      SubsetSize(a - {x}, b - {x});
    }
  }

  /** The collector never waits for ever: until it has every result, some goroutine
      or the collector itself can move. */
  lemma NoDeadlock<R>(answers: seq<R>, events: seq<Event>)
    requires |Run(answers, events).received| < |answers|
    ensures exists e :: Enabled(Run(answers, events), e)
  {
    var f := Run(answers, events);
    RunInv(answers, events);
    if f.channel != [] {
      assert Enabled(f, Receive);
    } else {
      assert SentResults(f) == f.received;
      FewResults(SentResults(f), |answers|);
      var i: nat :| i < |answers| && !Delivered(SentResults(f), i);
      if f.phases[i].Fetching? {
        assert Enabled(f, Send(i));
      } else if Holding(f.phases) < PERMITS {
        assert Enabled(f, Acquire(i));
      } else {
        SomebodyActive(f.phases);
        var j: nat :| j < |f.phases| && (f.phases[j].Fetching? || f.phases[j].Sent?);
        assert Enabled(f, Send(j)) || Enabled(f, Release(j));
      }
    }
  }

  function Cost(p: Phase): nat {
    match p
    case Waiting => 3
    case Fetching => 2
    case Sent => 1
    case Done => 0
  }

  /** The moves the goroutines still have to make. */
  function Left(phases: seq<Phase>): nat {
    if phases == [] then 0
    else Left(phases[..|phases| - 1]) + Cost(phases[|phases| - 1])
  }

  lemma {:induction false} LeftUpdate(phases: seq<Phase>, i: nat, p: Phase)
    requires i < |phases|
    ensures Left(phases[i := p]) - Cost(p) == Left(phases) - Cost(phases[i])
  {
    var n := |phases| - 1;
    if i < n {
      LeftUpdate(phases[..n], i, p);
      assert phases[i := p][..n] == phases[..n][i := p];
    } else {
      assert phases[i := p][..n] == phases[..n];
    }
  }

  lemma {:induction false} AllWaiting(n: nat)
    ensures Left(seq(n, _ => Waiting)) == 3 * n
  {
    if n > 0 {
      AllWaiting(n - 1);
      assert seq(n, _ => Waiting)[..n - 1] == seq(n - 1, _ => Waiting);
    }
  }

  ghost function Work<R>(f: Fetch<R>): int {
    Left(f.phases) + |f.phases| - |f.received|
  }

  lemma MoveCounts<R>(answers: seq<R>, f: Fetch<R>, e: Event)
    requires |answers| == |f.phases| && Enabled(f, e)
    ensures Work(Next(answers, f, e)) == Work(f) - 1
  {
    match e {
      case Acquire(i) => LeftUpdate(f.phases, i, Fetching);
      case Send(i) => LeftUpdate(f.phases, i, Sent);
      case Release(i) => LeftUpdate(f.phases, i, Done);
      case Receive =>
    }
  }

  ghost predicate EachMoves<R>(answers: seq<R>, events: seq<Event>) {
    forall k :: 0 <= k < |events| ==> Enabled(Run(answers, events[..k]), events[k])
  }

  /** Nor does it run for ever: there are at most four moves a transaction, and after
      that many everything is received and every goroutine done. */
  lemma FourMovesEach<R>(answers: seq<R>, events: seq<Event>)
    requires EachMoves(answers, events)
    ensures |events| <= 4 * |answers|
    ensures var f := Run(answers, events);
      |events| == 4 * |answers| <==> |f.received| == |answers| && forall i :: 0 <= i < |f.phases| ==> f.phases[i].Done?
  {
    var f := Run(answers, events);
    MovesAndWork(answers, events);
    ReceivedBound(answers, events);
    NothingLeft(f.phases);
  }

  lemma {:induction false} NothingLeft(phases: seq<Phase>)
    ensures Left(phases) == 0 <==> forall i :: 0 <= i < |phases| ==> phases[i].Done?
  {
    if phases != [] {
      var before, last := phases[..|phases| - 1], phases[|phases| - 1];
      NothingLeft(before);
      assert phases == before + [last];
      assert last.Done? <==> Cost(last) == 0;
    }
  }

  lemma {:induction false} MovesAndWork<R>(answers: seq<R>, events: seq<Event>)
    requires EachMoves(answers, events)
    ensures |events| + Work(Run(answers, events)) == 4 * |answers|
  {
    if events == [] {
      AllWaiting(|answers|);
    } else {
      var n := |events| - 1;
      assert forall k :: 0 <= k < n ==> events[..n][..k] == events[..k];
      MovesAndWork(answers, events[..n]);
      MoveCounts(answers, Run(answers, events[..n]), events[n]);
    }
  }

  lemma {:induction false} ReceivedBound<R>(answers: seq<R>, events: seq<Event>)
    ensures |Run(answers, events).received| <= |answers|
  {
    if events != [] {
      ReceivedBound(answers, events[..|events| - 1]);
    }
  }

  // ----- Collecting -----

  /** Results of distinct transactions, each what the node answered. */
  ghost predicate Arrivals<R>(results: seq<(nat, R)>, answers: seq<R>) {
    && (forall k :: 0 <= k < |results| ==> results[k].0 < |answers| && results[k].1 == answers[results[k].0])
    && forall j, k :: 0 <= j < k < |results| ==> results[j].0 != results[k].0
  }

  /** The converted transactions whose receipt came, in block order. */
  function InBlockOrder<R, T>(answers: seq<Option<R>>, convert: (nat, R) -> Option<T>): seq<T> {
    if answers == [] then []
    else
      var before, i := InBlockOrder(answers[..|answers| - 1], convert), |answers| - 1;
      if answers[i].None? then before
      else
        var tx := convert(i, answers[i].value);
        if tx.None? then before else before + [tx.value]
  }

  /** Filling the receipts by index as results arrive, then converting in order:
      the outcome is the same for every arrival order. */
  method Collect<R, T>(ghost answers: seq<Option<R>>, results: seq<(nat, Option<R>)>, convert: (nat, R) -> Option<T>)
    returns (transactions: seq<T>)
    requires Arrivals(results, answers) && |results| == |answers|
    ensures transactions == InBlockOrder(answers, convert)
  {
    var n := |results|;
    var receipts := new Option<R>[n](_ => None);
    for k := 0 to n
      invariant forall i :: 0 <= i < n ==> receipts[i] == if Delivered(results[..k], i) then answers[i] else None
    {
      var (index, receipt) := results[k];
      assert results[..k + 1] == results[..k] + [results[k]];
      forall i: nat | i < n ensures Delivered(results[..k + 1], i) <==> Delivered(results[..k], i) || index == i {
        DeliveredSnoc(results[..k], results[k], i);
      }
      if receipt.Some? {
        receipts[index] := receipt;
      }
    }
    assert results[..n] == results;
    AllDelivered(results, answers);
    assert receipts[..] == answers;
    transactions := [];
    for i := 0 to n
      invariant receipts[..] == answers
      invariant transactions == InBlockOrder(answers[..i], convert)
    {
      assert answers[..i + 1][..i] == answers[..i];
      assert receipts[i] == answers[i];
      if receipts[i].Some? {
        var tx := convert(i, receipts[i].value);
        if tx.Some? {
          transactions := transactions + [tx.value];
        }
      }
    }
    assert answers[..n] == answers;
  }

  /** Which transactions these are: those with a receipt that convert, in the order
      of the block. */
  lemma {:induction false} BlockOrder<R, T>(answers: seq<Option<R>>, convert: (nat, R) -> Option<T>) returns (from: seq<nat>)
    ensures var txs := InBlockOrder(answers, convert);
      && |from| == |txs|
      && (forall k :: 0 <= k < |from| ==>
            from[k] < |answers| && answers[from[k]].Some? && convert(from[k], answers[from[k]].value) == Some(txs[k]))
      && (forall j, k :: 0 <= j < k < |from| ==> from[j] < from[k])
      && forall i: nat :: i < |answers| && answers[i].Some? && convert(i, answers[i].value).Some? ==> i in from
  {
    if answers == [] {
      from := [];
    } else {
      var n := |answers| - 1;
      from := BlockOrder(answers[..n], convert);
      if answers[n].Some? && convert(n, answers[n].value).Some? {
        assert forall i: nat :: i in from ==> i in from + [n];
        from := from + [n];
      }
    }
  }

  /** The whole of it, for a block whose transactions the node answers with `answers`:
      whatever the schedule, once the collector has its results the outcome is that of
      all transactions of a block of at most two hundred, and of the first two hundred of
      a larger one. */
  method GetTransactions<R, T>(answers: seq<Option<R>>, events: seq<Event>, convert: (nat, R) -> Option<T>)
    returns (transactions: seq<T>)
    requires |answers| <= 200 ==> |Run(answers, events).received| == |answers|
    requires |answers| > 200 ==> |Run(answers[..200], events).received| == 200
    ensures |answers| <= 200 ==> transactions == InBlockOrder(answers, convert)
    ensures |answers| > 200 ==> transactions == InBlockOrder(answers[..200], convert)
  {
    if |answers| == 0 {
      return [];
    }
    var started := answers[..Fetched(|answers|)];
    assert |answers| <= 200 ==> started == answers;
    AtMostFifteen(started, events);
    transactions := Collect(started, Run(started, events).received, convert);
  }

  lemma {:induction false} AllDelivered<R>(results: seq<(nat, R)>, answers: seq<R>)
    requires Arrivals(results, answers) && |results| == |answers|
    ensures forall i: nat :: i < |answers| ==> Delivered(results, i)
  {
    var ids := set k | 0 <= k < |results| :: results[k].0;
    DistinctIds(results, ids);
    var all := Numbers(|answers|);
    forall i: nat | i < |answers| ensures Delivered(results, i) {
      if i !in ids {
        SubsetSize(ids, all - {i});
      }
    }
  }

  lemma {:induction false} DistinctIds<R>(results: seq<(nat, R)>, ids: set<nat>)
    requires ids == set k | 0 <= k < |results| :: results[k].0
    requires forall j, k :: 0 <= j < k < |results| ==> results[j].0 != results[k].0
    ensures |ids| == |results|
  {
    if results != [] {
      var n := |results| - 1;
      var before := set k | 0 <= k < n :: results[..n][k].0;
      DistinctIds(results[..n], before);
      assert ids == before + {results[n].0} by {
        forall x ensures x in ids <==> x in before + {results[n].0} {
          if x in ids {
            var k :| 0 <= k < |results| && results[k].0 == x;
            assert k < n ==> results[..n][k].0 == x;
          }
          if x in before {
            var k :| 0 <= k < n && results[..n][k].0 == x;
            assert results[k].0 == x;
          }
        }
      }
    }
  }
}
