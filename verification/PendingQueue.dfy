/** The in-memory queue of swaps whose pool is not resolved yet: producers append
    under a lock, one consumer hands groups to a handler with the lock released. */
module PendingQueue {
  datatype Side = In | Out

  /** A swap waiting for its pool's tokens. */
  datatype Message = Message(
    pool: string, protocol: string, txHash: string, blockNumber: int, blockTime: int, logIndex: int,
    amount0: int, side0: Side, amount1: int, side1: Side, enqueuedAt: int)

  datatype Limits = Limits(maxTotal: int, maxAge: int, maxAttempts: int)

  // ----- The queue's own state -----

  datatype Queue = Queue(groups: map<string, seq<Message>>, attempts: map<string, nat>, total: int)

  function Group(q: Queue, pool: string): seq<Message> {
    if pool in q.groups then q.groups[pool] else []
  }

  function Attempts(q: Queue, pool: string): nat {
    if pool in q.attempts then q.attempts[pool] else 0
  }

  /** Appending a message, or refusing it when the queue is full. */
  function Enqueued(c: Limits, q: Queue, msg: Message, now: int): (Queue, bool) {
    if q.total >= c.maxTotal then (q, false)
    else (Queue(q.groups[msg.pool := Group(q, msg.pool) + [msg.(enqueuedAt := now)]], q.attempts, q.total + 1), true)
  }

  predicate GivesUp(c: Limits, q: Queue, pool: string, msgs: seq<Message>, now: int)
    requires msgs != []
  {
    now - msgs[0].enqueuedAt > c.maxAge || Attempts(q, pool) + 1 >= c.maxAttempts
  }

  /** What the consumer does after the handler returned. */
  function Committed(c: Limits, q: Queue, pool: string, msgs: seq<Message>, ok: bool, now: int): Queue
    requires msgs != [] && |msgs| <= |Group(q, pool)|
  {
    if ok then
      var remaining := Group(q, pool)[|msgs|..];
      Queue(if remaining == [] then q.groups - {pool} else q.groups[pool := remaining],
            q.attempts - {pool}, q.total - |msgs|)
    else if GivesUp(c, q, pool, msgs, now) then
      Queue(q.groups - {pool}, q.attempts - {pool}, q.total - |Group(q, pool)|)
    else
      q.(attempts := q.attempts[pool := Attempts(q, pool) + 1])
  }

  // ----- The interleaved system -----

  datatype Consumer =
    | Idle
    | Scanning(pools: seq<string>)
    | Handling(pools: seq<string>, pool: string, msgs: seq<Message>)

  datatype Fate = Handled | Dropped

  /** A message that left the queue, and how often it was handed out. */
  datatype Retired = Retired(msg: Message, fate: Fate, tries: nat)

  /** Everything that ever happened to the messages of one pool, in order; `tries`
      runs along the queued ones. */
  datatype Book = Book(accepted: seq<Message>, retired: seq<Retired>, tries: seq<nat>)

  datatype System = System(q: Queue, consumer: Consumer, books: map<string, Book>, clock: int)

  function BookOf(s: System, pool: string): Book {
    if pool in s.books then s.books[pool] else Book([], [], [])
  }

  datatype Event =
    | Arrive(msg: Message, now: int)
    | Poll(order: seq<string>)
    | Take
    | Finish(ok: bool, now: int)

  function Retire(msgs: seq<Message>, tries: seq<nat>, fate: Fate): seq<Retired>
    requires |msgs| == |tries|
  {
    seq(|msgs|, i requires 0 <= i < |msgs| => Retired(msgs[i], fate, tries[i]))
  }

  /** The pools in some order, each once. */
  predicate Lists(q: Queue, order: seq<string>) {
    && (forall i, j :: 0 <= i < j < |order| ==> order[i] != order[j])
    && (forall i :: 0 <= i < |order| ==> Group(q, order[i]) != [])
    && forall pool :: pool in q.groups && q.groups[pool] != [] ==> pool in order
  }

  function TriedMore(tries: seq<nat>): seq<nat> {
    seq(|tries|, i requires 0 <= i < |tries| => tries[i] + 1)
  }

  function Settle(c: Limits, q: Queue, b: Book, pool: string, msgs: seq<Message>, ok: bool, now: int): Book
    requires msgs != [] && |msgs| <= |Group(q, pool)| == |b.tries|
  {
    if ok then
      b.(retired := b.retired + Retire(Group(q, pool)[..|msgs|], b.tries[..|msgs|], Handled), tries := b.tries[|msgs|..])
    else if GivesUp(c, q, pool, msgs, now) then
      b.(retired := b.retired + Retire(Group(q, pool), b.tries, Dropped), tries := [])
    else b
  }

  /** One atomic step. An event that cannot happen now changes nothing. */
  function Next(c: Limits, s: System, e: Event): System {
    match e
    case Arrive(msg, now) =>
      if now < s.clock then s
      else
        var (q, accepted) := Enqueued(c, s.q, msg, now);
        var b := BookOf(s, msg.pool);
        if !accepted then s.(clock := now)
        else s.(q := q, clock := now,
                books := s.books[msg.pool := b.(accepted := b.accepted + [msg.(enqueuedAt := now)], tries := b.tries + [0])])
    case Poll(order) =>
      if s.consumer.Idle? && Lists(s.q, order) then s.(consumer := Scanning(order)) else s
    case Take =>
      if !s.consumer.Scanning? then s
      else if s.consumer.pools == [] then s.(consumer := Idle)
      else
        var pool, rest := s.consumer.pools[0], s.consumer.pools[1..];
        var b := BookOf(s, pool);
        if Group(s.q, pool) == [] then s.(consumer := Scanning(rest))
        else s.(consumer := Handling(rest, pool, Group(s.q, pool)), books := s.books[pool := b.(tries := TriedMore(b.tries))])
    case Finish(ok, now) =>
      if !s.consumer.Handling? || now < s.clock then s
      else
        var Handling(rest, pool, msgs) := s.consumer;
        var b := BookOf(s, pool);
        if !(msgs != [] && |msgs| <= |Group(s.q, pool)| == |b.tries|) then s
        else System(Committed(c, s.q, pool, msgs, ok, now), Scanning(rest),
                    s.books[pool := Settle(c, s.q, b, pool, msgs, ok, now)], now)
  }

  function Run(c: Limits, s: System, events: seq<Event>): System {
    if events == [] then s
    else Next(c, Run(c, s, events[..|events| - 1]), events[|events| - 1])
  }

  const EMPTY := System(Queue(map[], map[], 0), Idle, map[], 0)

  // ----- The invariant -----

  function Messages(retired: seq<Retired>): seq<Message> {
    seq(|retired|, i requires 0 <= i < |retired| => retired[i].msg)
  }

  /** How often a message may be handed out. */
  function MaxTries(c: Limits): nat {
    if c.maxAttempts > 1 then c.maxAttempts else 1
  }

  /** How many messages of the pool are with the handler. */
  function InHand(s: System, pool: string): nat {
    if s.consumer.Handling? && s.consumer.pool == pool then |s.consumer.msgs| else 0
  }

  /** Every accepted message is retired or queued, in order. */
  ghost predicate Accounted(b: Book, g: seq<Message>) {
    b.accepted == Messages(b.retired) + g && |b.tries| == |g|
  }

  /** Neither map keeps a pool without messages. */
  ghost predicate Tidy(q: Queue, pool: string) {
    (pool in q.groups ==> Group(q, pool) != []) && (pool in q.attempts ==> pool in q.groups)
  }

  ghost predicate InTime(g: seq<Message>, pool: string, clock: int) {
    && (forall i :: 0 <= i < |g| ==> g[i].pool == pool && g[i].enqueuedAt <= clock)
    && forall i, j :: 0 <= i < j < |g| ==> g[i].enqueuedAt <= g[j].enqueuedAt
  }

  /** The n messages in hand were handed out at most once more than the pool has
      failed; of the rest, none while the handler runs. */
  ghost predicate Tried(c: Limits, tries: seq<nat>, attempts: nat, n: nat) {
    && (attempts > 0 ==> attempts < c.maxAttempts)
    && n <= |tries|
    && (forall i :: 0 <= i < n ==> 1 <= tries[i] <= attempts + 1)
    && (forall i :: n <= i < |tries| ==> tries[i] <= attempts)
    && (n > 0 ==> forall i :: n <= i < |tries| ==> tries[i] == 0)
  }

  ghost predicate Bounded(c: Limits, retired: seq<Retired>) {
    forall i :: 0 <= i < |retired| ==>
      retired[i].tries <= MaxTries(c) && (retired[i].fate.Handled? ==> retired[i].tries >= 1)
  }

  ghost predicate PoolInv(c: Limits, s: System, pool: string) {
    && Accounted(BookOf(s, pool), Group(s.q, pool))
    && Tidy(s.q, pool)
    && InTime(Group(s.q, pool), pool, s.clock)
    && Tried(c, BookOf(s, pool).tries, Attempts(s.q, pool), InHand(s, pool))
    && Bounded(c, BookOf(s, pool).retired)
  }

  /** The handler holds a prefix of its group, and the pools still to visit are
      others, each once, and not empty. */
  ghost predicate ConsumerInv(s: System) {
    && (s.consumer.Handling? ==>
          && s.consumer.msgs != []
          && s.consumer.msgs <= Group(s.q, s.consumer.pool)
          && s.consumer.pool !in s.consumer.pools)
    && (!s.consumer.Idle? ==>
          && (forall i, j :: 0 <= i < j < |s.consumer.pools| ==> s.consumer.pools[i] != s.consumer.pools[j])
          && forall i :: 0 <= i < |s.consumer.pools| ==> Group(s.q, s.consumer.pools[i]) != [])
  }

  /** The number of queued messages of all pools. */
  ghost function Size(groups: map<string, seq<Message>>): nat {
    if groups == map[] then 0
    else
      var pool :| pool in groups;
      |groups[pool]| + Size(groups - {pool})
  }

  ghost predicate TotalInv(c: Limits, q: Queue) {
    q.total == Size(q.groups) && q.total <= if c.maxTotal > 0 then c.maxTotal else 0
  }

  ghost predicate Inv(c: Limits, s: System) {
    (forall pool :: PoolInv(c, s, pool)) && ConsumerInv(s) && TotalInv(c, s.q)
  }

  lemma {:induction false} SizeWithout(groups: map<string, seq<Message>>, pool: string)
    requires pool in groups
    ensures Size(groups) == |groups[pool]| + Size(groups - {pool})
    decreases groups
  {
    var first :| first in groups && Size(groups) == |groups[first]| + Size(groups - {first});
    if first != pool {
      var rest := groups - {first};
      SizeWithout(rest, pool);
      SizeWithout(groups - {pool}, first);
      assert rest - {pool} == groups - {pool} - {first};
    }
  }

  lemma SizeUpdate(groups: map<string, seq<Message>>, pool: string, msgs: seq<Message>)
    ensures Size(groups[pool := msgs]) == Size(groups - {pool}) + |msgs|
  {
    SizeWithout(groups[pool := msgs], pool);
    assert groups[pool := msgs] - {pool} == groups - {pool};
  }

  // ----- Every step keeps it -----

  ghost predicate Untouched(s: System, s': System, pool: string) {
    && Group(s'.q, pool) == Group(s.q, pool) && (pool in s'.q.groups <==> pool in s.q.groups)
    && Attempts(s'.q, pool) == Attempts(s.q, pool) && (pool in s'.q.attempts <==> pool in s.q.attempts)
    && BookOf(s', pool) == BookOf(s, pool)
    && InHand(s', pool) == InHand(s, pool)
    && s.clock <= s'.clock
  }

  lemma Frame(c: Limits, s: System, s': System, pool: string)
    requires PoolInv(c, s, pool) && Untouched(s, s', pool)
    ensures PoolInv(c, s', pool)
  {
  }

  lemma InTimeSnoc(g: seq<Message>, msg: Message, clock: int, now: int)
    requires InTime(g, msg.pool, clock) && clock <= now
    ensures InTime(g + [msg.(enqueuedAt := now)], msg.pool, now)
  {
  }

  lemma TriedSnoc(c: Limits, tries: seq<nat>, attempts: nat, n: nat)
    requires Tried(c, tries, attempts, n)
    ensures Tried(c, tries + [0], attempts, n)
  {
  }

  lemma AccountedSnoc(b: Book, g: seq<Message>, msg: Message)
    requires Accounted(b, g)
    ensures Accounted(b.(accepted := b.accepted + [msg], tries := b.tries + [0]), g + [msg])
  {
  }

  lemma ArriveOwn(c: Limits, s: System, msg: Message, now: int)
    requires PoolInv(c, s, msg.pool) && now >= s.clock && s.q.total < c.maxTotal
    ensures PoolInv(c, Next(c, s, Arrive(msg, now)), msg.pool)
  {
    var s', pool := Next(c, s, Arrive(msg, now)), msg.pool;
    var b, g := BookOf(s, pool), Group(s.q, pool);
    AccountedSnoc(b, g, msg.(enqueuedAt := now));
    InTimeSnoc(g, msg, s.clock, now);
    TriedSnoc(c, b.tries, Attempts(s.q, pool), InHand(s, pool));
    assert Group(s'.q, pool) == g + [msg.(enqueuedAt := now)];
    assert InHand(s', pool) == InHand(s, pool);
  }

  lemma ArriveInv(c: Limits, s: System, msg: Message, now: int)
    requires Inv(c, s)
    ensures Inv(c, Next(c, s, Arrive(msg, now)))
  {
    var s' := Next(c, s, Arrive(msg, now));
    forall pool ensures PoolInv(c, s', pool) {
      assert PoolInv(c, s, pool);
      if now >= s.clock && s.q.total < c.maxTotal && pool == msg.pool {
        ArriveOwn(c, s, msg, now);
      } else {
        Frame(c, s, s', pool);
      }
    }
    if now >= s.clock && s.q.total < c.maxTotal {
      if msg.pool in s.q.groups {
        SizeWithout(s.q.groups, msg.pool);
      } else {
        assert s.q.groups - {msg.pool} == s.q.groups;
      }
      SizeUpdate(s.q.groups, msg.pool, Group(s'.q, msg.pool));
      assert ConsumerInv(s');
    }
  }

  lemma TriedTake(c: Limits, tries: seq<nat>, attempts: nat)
    requires Tried(c, tries, attempts, 0)
    ensures Tried(c, TriedMore(tries), attempts, |tries|)
  {
  }

  lemma TakeOwn(c: Limits, s: System)
    requires s.consumer.Scanning? && s.consumer.pools != [] && Group(s.q, s.consumer.pools[0]) != []
    requires PoolInv(c, s, s.consumer.pools[0])
    ensures PoolInv(c, Next(c, s, Take), s.consumer.pools[0])
  {
    var s', pool := Next(c, s, Take), s.consumer.pools[0];
    var b, g := BookOf(s, pool), Group(s.q, pool);
    TriedTake(c, b.tries, Attempts(s.q, pool));
    assert BookOf(s', pool) == b.(tries := TriedMore(b.tries)) && Group(s'.q, pool) == g;
    assert InHand(s', pool) == |g| == |b.tries|;
  }

  lemma TakeConsumer(c: Limits, s: System)
    requires ConsumerInv(s)
    ensures ConsumerInv(Next(c, s, Take)) && Next(c, s, Take).q == s.q
  {
  }

  lemma TakeInv(c: Limits, s: System)
    requires Inv(c, s)
    ensures Inv(c, Next(c, s, Take))
  {
    var s' := Next(c, s, Take);
    TakeConsumer(c, s);
    forall pool ensures PoolInv(c, s', pool) {
      assert PoolInv(c, s, pool);
      if s.consumer.Scanning? && s.consumer.pools != [] && pool == s.consumer.pools[0] && Group(s.q, pool) != [] {
        TakeOwn(c, s);
      } else {
        Frame(c, s, s', pool);
      }
    }
  }

  lemma PollInv(c: Limits, s: System, order: seq<string>)
    requires Inv(c, s)
    ensures Inv(c, Next(c, s, Poll(order)))
  {
    var s' := Next(c, s, Poll(order));
    forall pool ensures PoolInv(c, s', pool) {
      assert PoolInv(c, s, pool);
      Frame(c, s, s', pool);
    }
  }

  lemma MessagesAppend(a: seq<Retired>, b: seq<Retired>)
    ensures Messages(a + b) == Messages(a) + Messages(b)
  {
  }

  lemma MessagesRetire(msgs: seq<Message>, tries: seq<nat>, fate: Fate)
    requires |msgs| == |tries|
    ensures Messages(Retire(msgs, tries, fate)) == msgs
  {
  }

  lemma BoundedAppend(c: Limits, a: seq<Retired>, msgs: seq<Message>, tries: seq<nat>, fate: Fate)
    requires Bounded(c, a) && |msgs| == |tries|
    requires forall i :: 0 <= i < |tries| ==> tries[i] <= MaxTries(c) && (fate.Handled? ==> tries[i] >= 1)
    ensures Bounded(c, a + Retire(msgs, tries, fate))
  {
  }

  lemma HandledBook(c: Limits, b: Book, g: seq<Message>, attempts: nat, n: nat)
    requires Accounted(b, g) && Tried(c, b.tries, attempts, n) && Bounded(c, b.retired) && 0 < n <= |g|
    ensures var b' := b.(retired := b.retired + Retire(g[..n], b.tries[..n], Handled), tries := b.tries[n..]);
      Accounted(b', g[n..]) && Tried(c, b'.tries, 0, 0) && Bounded(c, b'.retired)
  {
    assert g == g[..n] + g[n..];
    MessagesAppend(b.retired, Retire(g[..n], b.tries[..n], Handled));
    MessagesRetire(g[..n], b.tries[..n], Handled);
    BoundedAppend(c, b.retired, g[..n], b.tries[..n], Handled);
  }

  lemma DroppedBook(c: Limits, b: Book, g: seq<Message>, attempts: nat, n: nat)
    requires Accounted(b, g) && Tried(c, b.tries, attempts, n) && Bounded(c, b.retired)
    ensures var b' := b.(retired := b.retired + Retire(g, b.tries, Dropped), tries := []);
      Accounted(b', []) && Tried(c, b'.tries, 0, 0) && Bounded(c, b'.retired)
  {
    MessagesAppend(b.retired, Retire(g, b.tries, Dropped));
    MessagesRetire(g, b.tries, Dropped);
    BoundedAppend(c, b.retired, g, b.tries, Dropped);
  }

  lemma InTimeSuffix(g: seq<Message>, pool: string, clock: int, now: int, n: nat)
    requires InTime(g, pool, clock) && clock <= now && n <= |g|
    ensures InTime(g[n..], pool, now)
  {
  }

  lemma FinishHandled(c: Limits, s: System, now: int)
    requires s.consumer.Handling? && now >= s.clock && PoolInv(c, s, s.consumer.pool) && ConsumerInv(s)
    ensures PoolInv(c, Next(c, s, Finish(true, now)), s.consumer.pool)
  {
    var s', pool, n := Next(c, s, Finish(true, now)), s.consumer.pool, |s.consumer.msgs|;
    var g, b := Group(s.q, pool), BookOf(s, pool);
    HandledBook(c, b, g, Attempts(s.q, pool), n);
    InTimeSuffix(g, pool, s.clock, now, n);
    assert Group(s'.q, pool) == g[n..];
    assert Attempts(s'.q, pool) == 0 && InHand(s', pool) == 0;
  }

  lemma FinishFailed(c: Limits, s: System, now: int)
    requires s.consumer.Handling? && now >= s.clock && PoolInv(c, s, s.consumer.pool) && ConsumerInv(s)
    ensures PoolInv(c, Next(c, s, Finish(false, now)), s.consumer.pool)
  {
    var s', pool := Next(c, s, Finish(false, now)), s.consumer.pool;
    var g, b := Group(s.q, pool), BookOf(s, pool);
    if GivesUp(c, s.q, pool, s.consumer.msgs, now) {
      DroppedBook(c, b, g, Attempts(s.q, pool), |s.consumer.msgs|);
      assert Group(s'.q, pool) == [];
    } else {
      assert Group(s'.q, pool) == g && BookOf(s', pool) == b;
    }
    assert InHand(s', pool) == 0;
  }

  lemma FinishTotal(c: Limits, s: System, ok: bool, now: int)
    requires s.consumer.Handling? && now >= s.clock && TotalInv(c, s.q) && ConsumerInv(s)
    ensures var s' := Next(c, s, Finish(ok, now)); TotalInv(c, s'.q)
  {
    var s', pool := Next(c, s, Finish(ok, now)), s.consumer.pool;
    SizeWithout(s.q.groups, pool);
    SizeUpdate(s.q.groups, pool, Group(s'.q, pool));
  }

  lemma FinishConsumer(c: Limits, s: System, ok: bool, now: int)
    requires s.consumer.Handling? && now >= s.clock && ConsumerInv(s)
    ensures ConsumerInv(Next(c, s, Finish(ok, now)))
  {
    var s' := Next(c, s, Finish(ok, now));
    forall i | 0 <= i < |s.consumer.pools| ensures Group(s'.q, s.consumer.pools[i]) == Group(s.q, s.consumer.pools[i]) {
      assert s.consumer.pools[i] in s.consumer.pools;
    }
  }

  lemma FinishInv(c: Limits, s: System, ok: bool, now: int)
    requires Inv(c, s)
    ensures Inv(c, Next(c, s, Finish(ok, now)))
  {
    var s' := Next(c, s, Finish(ok, now));
    if s.consumer.Handling? && now >= s.clock {
      FinishTotal(c, s, ok, now);
      FinishConsumer(c, s, ok, now);
    }
    forall pool ensures PoolInv(c, s', pool) {
      assert PoolInv(c, s, pool);
      if s.consumer.Handling? && now >= s.clock && pool == s.consumer.pool {
        if ok { FinishHandled(c, s, now); } else { FinishFailed(c, s, now); }
      } else {
        Frame(c, s, s', pool);
      }
    }
  }

  lemma {:induction false} RunInv(c: Limits, events: seq<Event>)
    ensures Inv(c, Run(c, EMPTY, events))
  {
    if events != [] {
      RunInv(c, events[..|events| - 1]);
      var s := Run(c, EMPTY, events[..|events| - 1]);
      match events[|events| - 1] {
        case Arrive(msg, now) => ArriveInv(c, s, msg, now);
        case Poll(order) => PollInv(c, s, order);
        case Take => TakeInv(c, s);
        case Finish(ok, now) => FinishInv(c, s, ok, now);
      }
    }
  }

  // ----- What follows for every run -----

  /** Whatever enqueues interleave with the consumer: the messages a pool accepted
      are, in order, those that left it, each handled or dropped once, followed by
      those still queued; and `total` is the number queued and never exceeds the
      capacity. */
  lemma Conservation(c: Limits, events: seq<Event>)
    ensures var s := Run(c, EMPTY, events);
      && (forall pool :: BookOf(s, pool).accepted == Messages(BookOf(s, pool).retired) + Group(s.q, pool))
      && s.q.total == Size(s.q.groups) <= (if c.maxTotal > 0 then c.maxTotal else 0)
      && s.q.attempts.Keys <= s.q.groups.Keys
      && forall pool :: pool in s.q.groups ==> s.q.groups[pool] != []
  {
    var s := Run(c, EMPTY, events);
    RunInv(c, events);
    forall pool
      ensures BookOf(s, pool).accepted == Messages(BookOf(s, pool).retired) + Group(s.q, pool)
      ensures pool in s.q.attempts ==> pool in s.q.groups
      ensures pool in s.q.groups ==> s.q.groups[pool] != []
    {
      assert PoolInv(c, s, pool);
    }
  }

  /** No message is handed out more than max(1, maxAttempts) times, and a handled
      one at least once. */
  lemma TriesAreBounded(c: Limits, events: seq<Event>, pool: string)
    ensures var b := BookOf(Run(c, EMPTY, events), pool);
      && (forall i :: 0 <= i < |b.retired| ==>
            b.retired[i].tries <= MaxTries(c) && (b.retired[i].fate.Handled? ==> b.retired[i].tries >= 1))
      && forall i :: 0 <= i < |b.tries| ==> b.tries[i] <= MaxTries(c)
  {
    RunInv(c, events);
    assert PoolInv(c, Run(c, EMPTY, events), pool);
  }

  /** While the handler runs, what it was given stays the beginning of its group,
      so a commit never slices beyond it; and the pools still to visit are not
      empty, so none is ever skipped and the handler gets all its messages. */
  lemma SnapshotStaysPrefix(c: Limits, events: seq<Event>)
    ensures var s := Run(c, EMPTY, events);
      && (s.consumer.Handling? ==>
            s.consumer.msgs != [] && s.consumer.msgs <= Group(s.q, s.consumer.pool)
            && |Group(s.q, s.consumer.pool)| == |BookOf(s, s.consumer.pool).tries|)
      && (s.consumer.Scanning? && s.consumer.pools != [] ==>
            var pool, rest := s.consumer.pools[0], s.consumer.pools[1..];
            Group(s.q, pool) != [] && Next(c, s, Take).consumer == Handling(rest, pool, Group(s.q, pool)))
  {
    RunInv(c, events);
    var s := Run(c, EMPTY, events);
    if s.consumer.Handling? {
      assert PoolInv(c, s, s.consumer.pool);
    }
  }

  /** What the handler is given are the messages the pool accepted right after the
      ones that left it, in the order they arrived. */
  lemma HandlerGetsNext(c: Limits, events: seq<Event>)
    requires Run(c, EMPTY, events).consumer.Handling?
    ensures var s := Run(c, EMPTY, events);
      var b, msgs := BookOf(s, s.consumer.pool), s.consumer.msgs;
      && |b.retired| + |msgs| <= |b.accepted|
      && forall i :: 0 <= i < |msgs| ==> msgs[i] == b.accepted[|b.retired| + i] && msgs[i].pool == s.consumer.pool
  {
    RunInv(c, events);
    var s := Run(c, EMPTY, events);
    assert PoolInv(c, s, s.consumer.pool);
    assert forall i :: 0 <= i < |s.consumer.msgs| ==> s.consumer.msgs[i] == Group(s.q, s.consumer.pool)[i];
  }

  /** The one message checked for expiry stands for its whole group: it is too old
      exactly when some queued message of the pool is. */
  lemma OldestIsChecked(c: Limits, events: seq<Event>, now: int)
    requires Run(c, EMPTY, events).consumer.Handling?
    ensures var s := Run(c, EMPTY, events);
      s.consumer.msgs != [] &&
      (now - s.consumer.msgs[0].enqueuedAt > c.maxAge
       <==> exists i :: 0 <= i < |Group(s.q, s.consumer.pool)| && now - Group(s.q, s.consumer.pool)[i].enqueuedAt > c.maxAge)
  {
    RunInv(c, events);
    var s := Run(c, EMPTY, events);
    assert PoolInv(c, s, s.consumer.pool);
    assert s.consumer.msgs[0] == Group(s.q, s.consumer.pool)[0];
  }

  /** What a failed visit does to the pool whose handler failed. */
  ghost predicate GroupGone(s: System, s': System, pool: string) {
    && Group(s'.q, pool) == [] && Attempts(s'.q, pool) == 0
    && s'.q.total == s.q.total - |Group(s.q, pool)|
  }

  ghost predicate GroupKept(s: System, s': System, pool: string) {
    && Group(s'.q, pool) == Group(s.q, pool) && Attempts(s'.q, pool) == Attempts(s.q, pool) + 1
    && s'.q.total == s.q.total
  }

  /** The first message was handed out as often as its pool has failed, and once more
      while it is with the handler. */
  ghost predicate HeadTried(s: System, pool: string) {
    var tries := BookOf(s, pool).tries;
    tries != [] ==> tries[0] == Attempts(s.q, pool) + if InHand(s, pool) > 0 then 1 else 0
  }

  lemma HeadAfterTake(c: Limits, s: System, pool: string)
    requires PoolInv(c, s, pool) && ConsumerInv(s) && HeadTried(s, pool)
    ensures HeadTried(Next(c, s, Take), pool)
  {
    var s' := Next(c, s, Take);
    if s.consumer.Scanning? && s.consumer.pools != [] && pool == s.consumer.pools[0] && Group(s.q, pool) != [] {
      assert BookOf(s', pool).tries == TriedMore(BookOf(s, pool).tries);
      assert InHand(s, pool) == 0 && InHand(s', pool) > 0;
    } else {
      HeadKept(s, s', pool);
    }
  }

  /** A pool without messages has no failed attempts and nothing in hand. */
  ghost predicate CleanWhenEmpty(s: System, pool: string) {
    BookOf(s, pool).tries == [] ==> Attempts(s.q, pool) == 0 && InHand(s, pool) == 0
  }

  lemma EmptyIsClean(c: Limits, s: System, pool: string)
    requires PoolInv(c, s, pool)
    ensures CleanWhenEmpty(s, pool)
  {
  }

  lemma HeadAfterArrive(c: Limits, s: System, msg: Message, now: int, pool: string)
    requires CleanWhenEmpty(s, pool) && HeadTried(s, pool)
    ensures HeadTried(Next(c, s, Arrive(msg, now)), pool)
  {
    var s' := Next(c, s, Arrive(msg, now));
    if now >= s.clock && s.q.total < c.maxTotal && pool == msg.pool {
      HeadSnoc(s, s', pool);
    } else {
      ArriveElsewhere(c, s, msg, now, pool);
      HeadKept(s, s', pool);
    }
  }

  /** A message behind others, or alone in a group without failed attempts. */
  lemma HeadSnoc(s: System, s': System, pool: string)
    requires HeadTried(s, pool) && BookOf(s', pool).tries == BookOf(s, pool).tries + [0]
    requires Attempts(s'.q, pool) == Attempts(s.q, pool) && InHand(s', pool) == InHand(s, pool)
    requires CleanWhenEmpty(s, pool)
    ensures HeadTried(s', pool)
  {
  }

  lemma ArriveElsewhere(c: Limits, s: System, msg: Message, now: int, pool: string)
    requires now < s.clock || s.q.total >= c.maxTotal || pool != msg.pool
    ensures Untouched(s, Next(c, s, Arrive(msg, now)), pool)
  {
  }

  lemma HeadAfterHandled(c: Limits, s: System, now: int)
    requires s.consumer.Handling? && now >= s.clock && PoolInv(c, s, s.consumer.pool) && ConsumerInv(s)
    ensures HeadTried(Next(c, s, Finish(true, now)), s.consumer.pool)
  {
    var s', pool := Next(c, s, Finish(true, now)), s.consumer.pool;
    assert BookOf(s', pool).tries == BookOf(s, pool).tries[|s.consumer.msgs|..];
  }

  lemma HeadAfterFailed(c: Limits, s: System, now: int)
    requires s.consumer.Handling? && now >= s.clock && PoolInv(c, s, s.consumer.pool) && ConsumerInv(s)
    requires HeadTried(s, s.consumer.pool)
    ensures HeadTried(Next(c, s, Finish(false, now)), s.consumer.pool)
  {
  }

  lemma HeadAfterFinish(c: Limits, s: System, ok: bool, now: int, pool: string)
    requires PoolInv(c, s, pool) && ConsumerInv(s) && HeadTried(s, pool)
    ensures HeadTried(Next(c, s, Finish(ok, now)), pool)
  {
    if s.consumer.Handling? && now >= s.clock && pool == s.consumer.pool {
      if ok {
        HeadAfterHandled(c, s, now);
      } else {
        HeadAfterFailed(c, s, now);
      }
    } else {
      FinishElsewhere(c, s, ok, now, pool);
      HeadKept(s, Next(c, s, Finish(ok, now)), pool);
    }
  }

  lemma HeadKept(s: System, s': System, pool: string)
    requires HeadTried(s, pool) && Untouched(s, s', pool)
    ensures HeadTried(s', pool)
  {
  }

  lemma FinishElsewhere(c: Limits, s: System, ok: bool, now: int, pool: string)
    requires !(s.consumer.Handling? && now >= s.clock && pool == s.consumer.pool)
    ensures Untouched(s, Next(c, s, Finish(ok, now)), pool)
  {
  }

  lemma {:induction false} HeadIsTried(c: Limits, events: seq<Event>, pool: string)
    ensures HeadTried(Run(c, EMPTY, events), pool)
  {
    if events != [] {
      var s := Run(c, EMPTY, events[..|events| - 1]);
      HeadIsTried(c, events[..|events| - 1], pool);
      RunInv(c, events[..|events| - 1]);
      assert PoolInv(c, s, pool);
      match events[|events| - 1] {
        case Arrive(msg, now) =>
          EmptyIsClean(c, s, pool);
          HeadAfterArrive(c, s, msg, now, pool);
        case Poll(_) =>
        case Take => HeadAfterTake(c, s, pool);
        case Finish(ok, now) => HeadAfterFinish(c, s, ok, now, pool);
      }
    }
  }

  /** When a handler has failed, the pool's messages are dropped exactly when one of them
      has waited longer than the limit or the first of them has been handed out as often
      as the limit allows; otherwise they all stay, in order, and one more attempt is
      counted. */
  lemma FailedVisit(c: Limits, events: seq<Event>, now: int)
    requires var s := Run(c, EMPTY, events); s.consumer.Handling? && now >= s.clock
    ensures var s := Run(c, EMPTY, events);
      var s', pool := Next(c, s, Finish(false, now)), s.consumer.pool;
      var g, tries := Group(s.q, pool), BookOf(s, pool).tries;
      && |tries| == |g| > 0 && s.consumer.msgs <= g
      && if (exists i :: 0 <= i < |g| && now - g[i].enqueuedAt > c.maxAge) || tries[0] >= c.maxAttempts
         then GroupGone(s, s', pool) else GroupKept(s, s', pool)
  {
    RunInv(c, events);
    var s := Run(c, EMPTY, events);
    assert PoolInv(c, s, s.consumer.pool);
    HeadIsTried(c, events, s.consumer.pool);
    OldestIsChecked(c, events, now);
    assert s.consumer.msgs[0] == Group(s.q, s.consumer.pool)[0];
  }

  /** When the handler succeeds, exactly what it was given is gone, and the count of
      failed attempts with it. */
  lemma SuccessfulVisit(c: Limits, events: seq<Event>, now: int)
    requires var s := Run(c, EMPTY, events); s.consumer.Handling? && now >= s.clock
    ensures var s := Run(c, EMPTY, events);
      var s', pool := Next(c, s, Finish(true, now)), s.consumer.pool;
      && Group(s.q, pool) == s.consumer.msgs + Group(s'.q, pool)
      && Attempts(s'.q, pool) == 0 && s'.q.total == s.q.total - |s.consumer.msgs|
  {
    RunInv(c, events);
    HandledGroup(c, Run(c, EMPTY, events), now);
  }

  lemma HandledGroup(c: Limits, s: System, now: int)
    requires Inv(c, s) && s.consumer.Handling? && now >= s.clock
    ensures var s', pool := Next(c, s, Finish(true, now)), s.consumer.pool;
      && Group(s.q, pool) == s.consumer.msgs + Group(s'.q, pool)
      && Attempts(s'.q, pool) == 0 && s'.q.total == s.q.total - |s.consumer.msgs|
  {
    var pool, n := s.consumer.pool, |s.consumer.msgs|;
    assert PoolInv(c, s, pool);
    var g := Group(s.q, pool);
    assert g == g[..n] + g[n..] && s.consumer.msgs == g[..n];
  }

  lemma GivingUpDrops(c: Limits, s: System, now: int)
    requires s.consumer.Handling? && now >= s.clock && PoolInv(c, s, s.consumer.pool) && ConsumerInv(s)
    requires GivesUp(c, s.q, s.consumer.pool, s.consumer.msgs, now)
    ensures var pool := s.consumer.pool;
      BookOf(Next(c, s, Finish(false, now)), pool).retired
      == BookOf(s, pool).retired + Retire(Group(s.q, pool), BookOf(s, pool).tries, Dropped)
  {
  }

  /** A failed attempt on which the consumer gives up drops the whole group. A
      message it drops was never handed to the handler exactly when it arrived
      after the handler's snapshot was taken. */
  lemma UntriedDrops(c: Limits, events: seq<Event>, now: int, i: nat)
    requires var s := Run(c, EMPTY, events);
      && s.consumer.Handling? && now >= s.clock
      && GroupGone(s, Next(c, s, Finish(false, now)), s.consumer.pool)
      && i < |Group(s.q, s.consumer.pool)|
    ensures var s, s' := Run(c, EMPTY, events), Run(c, EMPTY, events + [Finish(false, now)]);
      var before, after := BookOf(s, s.consumer.pool).retired, BookOf(s', s.consumer.pool).retired;
      && |after| == |before| + |Group(s.q, s.consumer.pool)|
      && after[|before| + i].msg == Group(s.q, s.consumer.pool)[i]
      && after[|before| + i].fate.Dropped?
      && (after[|before| + i].tries == 0 <==> i >= |s.consumer.msgs|)
  {
    RunInv(c, events);
    var s := Run(c, EMPTY, events);
    RunSnoc(c, EMPTY, events, Finish(false, now));
    assert PoolInv(c, s, s.consumer.pool);
    GivingUpDrops(c, s, now);
  }

  /** One attempt per pool; a second message arrives while the handler works on the
      first, and the handler fails. */
  function LateArrival(first: Message, late: Message): seq<Event> {
    [Arrive(first, 0), Poll([first.pool]), Take, Arrive(late, 0), Finish(false, 0)]
  }

  /** The second message is dropped without ever having been handed out. */
  lemma DroppedUntried(first: Message, late: Message)
    requires first.pool == late.pool
    ensures var b := BookOf(Run(Limits(10, 100, 1), EMPTY, LateArrival(first, late)), first.pool);
      b.retired == [Retired(first.(enqueuedAt := 0), Dropped, 1), Retired(late.(enqueuedAt := 0), Dropped, 0)]
  {
    var c, pool, events := Limits(10, 100, 1), first.pool, LateArrival(first, late);
    assert events == [] + [events[0]] + [events[1]] + [events[2]] + [events[3]] + [events[4]];
    var m, m' := first.(enqueuedAt := 0), late.(enqueuedAt := 0);
    var s1 := Next(c, EMPTY, events[0]);
    RunSnoc(c, EMPTY, [], events[0]);
    assert Group(s1.q, pool) == [m] && BookOf(s1, pool) == Book([m], [], [0]);
    var s2 := Next(c, s1, events[1]);
    RunSnoc(c, EMPTY, [] + [events[0]], events[1]);
    assert s2.consumer == Scanning([pool]);
    var s3 := Next(c, s2, events[2]);
    RunSnoc(c, EMPTY, [] + [events[0]] + [events[1]], events[2]);
    assert s3.consumer == Handling([], pool, [m]) && BookOf(s3, pool) == Book([m], [], [1]);
    var s4 := Next(c, s3, events[3]);
    RunSnoc(c, EMPTY, [] + [events[0]] + [events[1]] + [events[2]], events[3]);
    assert Group(s4.q, pool) == [m, m'] && BookOf(s4, pool) == Book([m, m'], [], [1, 0]);
    RunSnoc(c, EMPTY, [] + [events[0]] + [events[1]] + [events[2]] + [events[3]], events[4]);
    assert Retire([m, m'], [1, 0], Dropped) == [Retired(m, Dropped, 1), Retired(m', Dropped, 0)];
  }

  // ----- The queue itself -----

  /** A message and the time since the clock was last looked at. */
  datatype Arrival = Arrival(msg: Message, elapsed: nat)

  /** What the world does around one visit of the consumer: messages that arrive
      before its snapshot and while the handler runs, and how the handler ends. */
  datatype Turn = Turn(before: seq<Arrival>, during: seq<Arrival>, ok: bool, elapsed: nat)

  class Memory {
    const limits: Limits
    var groups: map<string, seq<Message>>
    var attempts: map<string, nat>
    var total: int
    var clock: int // the wall clock
    ghost var system: System

    ghost predicate Valid()
      reads this
    {
      system.q == Queue(groups, attempts, total) && system.clock == clock && Inv(limits, system)
    }

    constructor (limits: Limits)
      ensures Valid() && this.limits == limits && system == EMPTY
    {
      this.limits := limits;
      groups, attempts, total, clock := map[], map[], 0, 0;
      system := EMPTY;
      new;
      RunInv(limits, []);
    }

    method Enqueue(msg: Message, elapsed: nat) returns (accepted: bool)
      requires Valid()
      modifies this
      ensures Valid()
      ensures system == Next(limits, old(system), Arrive(msg, old(clock) + elapsed))
      ensures accepted <==> old(total) < limits.maxTotal
      ensures groups == if !accepted then old(groups)
              else old(groups)[msg.pool := old(Group(system.q, msg.pool)) + [msg.(enqueuedAt := clock)]]
      ensures attempts == old(attempts) && clock == old(clock) + elapsed
    {
      clock := clock + elapsed;
      ArriveInv(limits, system, msg, clock);
      system := Next(limits, system, Arrive(msg, clock));
      if total >= limits.maxTotal {
        return false;
      }
      var stamped := msg.(enqueuedAt := clock);
      groups := groups[msg.pool := (if msg.pool in groups then groups[msg.pool] else []) + [stamped]];
      total := total + 1;
      accepted := true;
    }

    /** Messages arriving from other goroutines while the lock is free. */
    method Interleave(arrivals: seq<Arrival>) returns (ghost events: seq<Event>)
      requires Valid()
      modifies this
      ensures Valid()
      ensures system == Run(limits, old(system), events)
      ensures forall e :: e in events ==> e.Arrive?
    {
      events := [];
      for i := 0 to |arrivals|
        invariant Valid()
        invariant system == Run(limits, old(system), events)
        invariant forall e :: e in events ==> e.Arrive?
      {
        ghost var e := Arrive(arrivals[i].msg, clock + arrivals[i].elapsed);
        var _ := Enqueue(arrivals[i].msg, arrivals[i].elapsed);
        assert (events + [e])[..|events|] == events;
        events := events + [e];
      }
    }

    /** Some order of the pools that have messages. */
    method ListGroups() returns (pools: seq<string>)
      ensures Lists(Queue(groups, attempts, total), pools)
    {
      pools := [];
      var rest := groups.Keys;
      while rest != {}
        invariant rest <= groups.Keys
        invariant forall i, j :: 0 <= i < j < |pools| ==> pools[i] != pools[j]
        invariant forall i :: 0 <= i < |pools| ==> pools[i] in groups && groups[pools[i]] != [] && pools[i] !in rest
        invariant forall pool :: pool in groups && groups[pool] != [] ==> pool in pools || pool in rest
        decreases rest
      {
        var pool :| pool in rest;
        rest := rest - {pool};
        if |groups[pool]| > 0 {
          pools := pools + [pool];
        }
      }
    }

    method ListPools() returns (pools: seq<string>)
      requires Valid() && system.consumer.Idle?
      modifies this`system
      ensures Valid()
      ensures system == Next(limits, old(system), Poll(pools)) && system.consumer == Scanning(pools)
    {
      pools := ListGroups();
      PollInv(limits, system, pools);
      system := Next(limits, system, Poll(pools));
    }

    /** The messages for the handler; the consumer does not skip a listed pool. */
    method TakeGroup(ghost pools: seq<string>, pool: string) returns (msgs: seq<Message>)
      requires Valid() && system.consumer == Scanning([pool] + pools)
      modifies this`system
      ensures Valid()
      ensures msgs != [] && msgs == Group(old(system).q, pool)
      ensures system == Next(limits, old(system), Take) && system.consumer == Handling(pools, pool, msgs)
    {
      msgs := if pool in groups then groups[pool] else [];
      assert system.consumer.pools[0] == pool && system.consumer.pools[1..] == pools;
      TakeInv(limits, system);
      system := Next(limits, system, Take);
    }

    method Commit(pool: string, msgs: seq<Message>, ok: bool, elapsed: nat)
      requires Valid() && system.consumer.Handling? && system.consumer.pool == pool && system.consumer.msgs == msgs
      modifies this
      ensures Valid()
      ensures system == Next(limits, old(system), Finish(ok, old(clock) + elapsed))
      ensures system.consumer == Scanning(old(system.consumer.pools))
    {
      assert PoolInv(limits, system, pool);
      clock := clock + elapsed;
      FinishInv(limits, system, ok, clock);
      ghost var before := system;
      system := Next(limits, system, Finish(ok, clock));
      assert system.q == Committed(limits, before.q, pool, msgs, ok, clock);
      var group := if pool in groups then groups[pool] else [];
      if !ok {
        var tried := (if pool in attempts then attempts[pool] else 0) + 1;
        attempts := attempts[pool := tried];
        var expired := clock - msgs[0].enqueuedAt > limits.maxAge;
        var exhausted := tried >= limits.maxAttempts;
        if expired || exhausted {
          total := total - |group|;
          groups := groups - {pool};
          attempts := attempts - {pool};
        }
      } else {
        var remaining := group[|msgs|..];
        if |remaining| == 0 {
          groups := groups - {pool};
        } else {
          groups := groups[pool := remaining];
        }
        total := total - |msgs|;
        attempts := attempts - {pool};
      }
    }

    /** One pool's visit: snapshot, handler without the lock, commit. */
    method Visit(ghost rest: seq<string>, pool: string, turn: Turn) returns (ghost events: seq<Event>)
      requires Valid() && system.consumer == Scanning([pool] + rest)
      modifies this
      ensures Valid() && system.consumer == Scanning(rest)
      ensures system == Run(limits, old(system), events)
    {
      ghost var arrived := Interleave(turn.before);
      ArrivalsKeepConsumer(limits, old(system), arrived);
      var msgs := TakeGroup(rest, pool);
      RunSnoc(limits, old(system), arrived, Take);
      ghost var handed := system;
      ghost var during := Interleave(turn.during);
      ArrivalsKeepConsumer(limits, handed, during);
      RunAppend(limits, old(system), arrived + [Take], during);
      ghost var end := Finish(turn.ok, clock + turn.elapsed);
      Commit(pool, msgs, turn.ok, turn.elapsed);
      RunSnoc(limits, old(system), arrived + [Take] + during, end);
      events := arrived + [Take] + during + [end];
    }

    /** One round of the consumer is a run of the system, whatever arrives in
        between and however the handler ends each time. */
    method ProcessOnce(turns: nat -> Turn) returns (ghost events: seq<Event>)
      requires Valid() && system.consumer.Idle?
      modifies this
      ensures Valid() && system.consumer.Idle?
      ensures system == Run(limits, old(system), events)
    {
      var pools := ListPools();
      events := [Poll(pools)];
      assert events[..0] == [];
      for i := 0 to |pools|
        invariant Valid() && system.consumer == Scanning(pools[i..])
        invariant system == Run(limits, old(system), events)
      {
        assert pools[i..] == [pools[i]] + pools[i + 1..];
        ghost var visited := Visit(pools[i + 1..], pools[i], turns(i));
        RunAppend(limits, old(system), events, visited);
        events := events + visited;
      }
      RunSnoc(limits, old(system), events, Take);
      Rest();
      events := events + [Take];
    }

    /** The consumer is done with every listed pool. */
    ghost method Rest()
      requires Valid() && system.consumer == Scanning([])
      modifies this`system
      ensures Valid() && system == Next(limits, old(system), Take) && system.consumer == Idle
    {
      TakeInv(limits, system);
      system := Next(limits, system, Take);
    }
  }

  lemma RunSnoc(c: Limits, s: System, events: seq<Event>, e: Event)
    ensures Run(c, s, events + [e]) == Next(c, Run(c, s, events), e)
  {
    assert (events + [e])[..|events|] == events;
  }

  lemma {:induction false} RunAppend(c: Limits, s: System, a: seq<Event>, b: seq<Event>)
    ensures Run(c, s, a + b) == Run(c, Run(c, s, a), b)
  {
    if b == [] {
      assert a + b == a;
    } else {
      var less, e := b[..|b| - 1], b[|b| - 1];
      RunAppend(c, s, a, less);
      RunSnoc(c, s, a + less, e);
      assert a + b == a + less + [e];
    }
  }

  lemma {:induction false} ArrivalsKeepConsumer(c: Limits, s: System, events: seq<Event>)
    requires forall e :: e in events ==> e.Arrive?
    ensures Run(c, s, events).consumer == s.consumer
  {
    if events != [] {
      ArrivalsKeepConsumer(c, s, events[..|events| - 1]);
      assert events[|events| - 1] in events;
    }
  }
}
