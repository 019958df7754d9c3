/** The progress tracker that writes to a fast primary store and, every
    syncInterval updates or whenever the primary is down, to a durable
    secondary store. One chain per tracker. */
module FallbackTracker {
  import opened Outcomes
  import opened Arithmetic

  /** The checkpoint row of a chain. */
  datatype Progress = Progress(lastBlock: int, totalTransactions: int, totalEvents: int)

  /** What a store answers when it holds no row. */
  const DEFAULT_PROGRESS := Progress(0, 0, 0)

  const UINT64_SIZE: nat := 0x1_0000_0000_0000_0000

  type Uint64 = n: nat | n < UINT64_SIZE

  type SyncInterval = n: nat | 0 < n < UINT64_SIZE witness 10

  // ----- Abstract state and transitions -----

  datatype Tracker = Tracker(
    primary: Option<Progress>,
    secondary: Option<Progress>,
    updateCount: Uint64,
    primaryHealthy: bool)

  datatype ReadFaults = ReadFaults(primaryOk: bool, secondaryOk: bool)

  datatype WriteFaults = WriteFaults(primary: Write, secondary: Write)

  function Held(row: Option<Progress>): Progress {
    if row.Some? then row.value else DEFAULT_PROGRESS
  }

  function Written(row: Option<Progress>, p: Progress, w: Write): Option<Progress> {
    if w.Applied() then Some(p) else row
  }

  /** The state and the answer after a read. */
  function Get(t: Tracker, f: ReadFaults): (Tracker, Result<Progress>) {
    if t.primaryHealthy && f.primaryOk then
      (t, Ok(Held(t.primary)))
    else
      (t.(primaryHealthy := false), if f.secondaryOk then Ok(Held(t.secondary)) else Err)
  }

  function NextCount(t: Tracker): Uint64 {
    (t.updateCount + 1) % UINT64_SIZE
  }

  /** Whether this update reaches the secondary. */
  predicate Syncs(t: Tracker, interval: SyncInterval, f: WriteFaults) {
    !t.primaryHealthy || !f.primary.Acked? || NextCount(t) % interval == 0
  }

  /** The state after an update, and whether the caller is told it succeeded. */
  function Update(t: Tracker, interval: SyncInterval, p: Progress, f: WriteFaults): (Tracker, bool) {
    var primary := if t.primaryHealthy then Written(t.primary, p, f.primary) else t.primary;
    var secondary := if Syncs(t, interval, f) then Written(t.secondary, p, f.secondary) else t.secondary;
    var healthy := t.primaryHealthy && f.primary.Acked?;
    (Tracker(primary, secondary, NextCount(t), healthy), healthy || f.secondary.Acked?)
  }

  function Reset(t: Tracker, f: WriteFaults): (Tracker, bool) {
    (t.(primary := Written(t.primary, DEFAULT_PROGRESS, f.primary),
        secondary := Written(t.secondary, DEFAULT_PROGRESS, f.secondary)),
     f.secondary.Acked?)
  }

  // ----- The tracker itself -----

  /** A remote store of one row; `w` and `reachable` are what the network does. */
  class ProgressStore {
    var row: Option<Progress>

    constructor ()
      ensures row == None
    {
      row := None;
    }

    method GetProgress(reachable: bool) returns (r: Result<Progress>)
      ensures r == if reachable then Ok(Held(row)) else Err
    {
      if !reachable {
        return Err;
      }
      match row {
        case None => r := Ok(DEFAULT_PROGRESS);
        case Some(p) => r := Ok(p);
      }
    }

    method UpdateProgress(p: Progress, w: Write) returns (ok: bool)
      modifies this
      ensures row == Written(old(row), p, w)
      ensures ok == w.Acked?
    {
      if w.Applied() {
        row := Some(p);
      }
      ok := w.Acked?;
    }
  }

  class FallbackProgressTracker {
    const primary: ProgressStore
    const secondary: ProgressStore
    const syncInterval: SyncInterval
    var updateCount: Uint64
    var primaryHealthy: bool

    ghost predicate Valid() {
      primary != secondary
    }

    ghost function State(): Tracker
      reads this, primary, secondary
    {
      Tracker(primary.row, secondary.row, updateCount, primaryHealthy)
    }

    /** A zero interval means the default of ten. */
    constructor (primary: ProgressStore, secondary: ProgressStore, syncInterval: nat)
      requires primary != secondary && syncInterval < UINT64_SIZE
      ensures Valid()
      ensures this.primary == primary && this.secondary == secondary
      ensures this.syncInterval == if syncInterval == 0 then 10 else syncInterval
      ensures State() == Tracker(primary.row, secondary.row, 0, true)
    {
      this.primary := primary;
      this.secondary := secondary;
      this.syncInterval := if syncInterval == 0 then 10 else syncInterval;
      updateCount := 0;
      primaryHealthy := true;
    }

    method MarkPrimary(healthy: bool)
      modifies this`primaryHealthy
      ensures primaryHealthy == healthy
    {
      if primaryHealthy != healthy {
        primaryHealthy := healthy;
      }
    }

    method GetProgress(f: ReadFaults) returns (r: Result<Progress>)
      requires Valid()
      modifies this`primaryHealthy
      ensures (State(), r) == Get(old(State()), f)
    {
      if primaryHealthy {
        r := primary.GetProgress(f.primaryOk);
        if r.Ok? {
          MarkPrimary(true);
          return;
        }
        MarkPrimary(false);
      }
      r := secondary.GetProgress(f.secondaryOk);
    }

    method UpdateProgress(p: Progress, f: WriteFaults) returns (ok: bool)
      requires Valid()
      modifies this, primary, secondary
      ensures (State(), ok) == Update(old(State()), syncInterval, p, f)
    {
      updateCount := (updateCount + 1) % UINT64_SIZE;
      var shouldSync := updateCount % syncInterval == 0;
      if primaryHealthy {
        ok := primary.UpdateProgress(p, f.primary);
        if !ok {
          MarkPrimary(false);
        } else {
          MarkPrimary(true);
          if shouldSync {
            var _ := secondary.UpdateProgress(p, f.secondary);
          }
          return true;
        }
      }
      ok := secondary.UpdateProgress(p, f.secondary);
    }

    method ResetProgress(f: WriteFaults) returns (ok: bool)
      requires Valid()
      modifies primary, secondary
      ensures (State(), ok) == Reset(old(State()), f)
    {
      var _ := primary.UpdateProgress(DEFAULT_PROGRESS, f.primary);
      ok := secondary.UpdateProgress(DEFAULT_PROGRESS, f.secondary);
    }
  }

  // ----- Runs -----

  /** Everything that can happen to the tracker and its stores. `Revert` is a
      primary that comes back as it was after the first `age` events, or empty;
      `Restart` is a new process on the same stores. */
  datatype Event =
    | Read(readFaults: ReadFaults)
    | Save(p: Progress, writeFaults: WriteFaults)
    | ResetBoth(writeFaults: WriteFaults)
    | Probe(healthy: bool)
    | Revert(age: nat)
    | Restart

  function Run(t: Tracker, interval: SyncInterval, events: seq<Event>): Tracker
    decreases |events|
  {
    if events == [] then t
    else
      var before := events[..|events| - 1];
      var mid := Run(t, interval, before);
      match events[|events| - 1]
      case Read(f) => Get(mid, f).0
      case Save(p, f) => Update(mid, interval, p, f).0
      case ResetBoth(f) => Reset(mid, f).0
      case Probe(h) => mid.(primaryHealthy := h)
      case Revert(age) => mid.(primary := if age < |before| then Run(t, interval, before[..age]).primary else None)
      case Restart => mid.(updateCount := 0, primaryHealthy := true)
  }

  /** The rows a run was asked to save, in order. */
  function Saves(events: seq<Event>): seq<Progress> {
    if events == [] then []
    else
      var before := Saves(events[..|events| - 1]);
      var e := events[|events| - 1];
      match e
      case Save(p, _) => before + [p]
      case ResetBoth(_) => before + [DEFAULT_PROGRESS]
      case _ => before
  }

  function Restarts(events: seq<Event>): nat {
    if events == [] then 0
    else Restarts(events[..|events| - 1]) + if events[|events| - 1].Restart? then 1 else 0
  }

  ghost predicate SecondaryAcks(events: seq<Event>) {
    forall i :: 0 <= i < |events| && (events[i].Save? || events[i].ResetBoth?) ==> events[i].writeFaults.secondary.Acked?
  }

  /** The secondary holds what was saved `lag` saves ago, or still its first row
      when nothing was saved before that. */
  ghost predicate SecondaryLags(first: Option<Progress>, saves: seq<Progress>, now: Option<Progress>, lag: nat) {
    lag <= |saves| && now == if lag == |saves| then first else Some(saves[|saves| - 1 - lag])
  }

  // ----- How far the secondary falls behind -----

  /** The secondary lags by at most syncInterval - 1 saves for every process
      lifetime in the run, whatever the primary does. */
  lemma {:induction false} StalenessBound(t: Tracker, interval: SyncInterval, events: seq<Event>)
    requires t.updateCount == 0 && SecondaryAcks(events)
    ensures exists lag: nat ::
      SecondaryLags(t.secondary, Saves(events), Run(t, interval, events).secondary, lag)
      && lag <= (Restarts(events) + 1) * (interval - 1)
  {
    LagMeaning(t, interval, events);
    LagBound(t, interval, events);
    var count := Run(t, interval, events).updateCount;
    assert count % interval <= interval - 1;
    assert (Restarts(events) + 1) * (interval - 1) == Restarts(events) * (interval - 1) + (interval - 1);
  }

  /** The number of saves since the secondary was last written. */
  ghost function Lag(t: Tracker, interval: SyncInterval, events: seq<Event>): nat {
    if events == [] then 0
    else
      var before, e := events[..|events| - 1], events[|events| - 1];
      if e.ResetBoth? then 0
      else if !e.Save? then Lag(t, interval, before)
      else if Syncs(Run(t, interval, before), interval, e.writeFaults) then 0
      else Lag(t, interval, before) + 1
  }

  lemma {:induction false} LagMeaning(t: Tracker, interval: SyncInterval, events: seq<Event>)
    requires SecondaryAcks(events)
    ensures SecondaryLags(t.secondary, Saves(events), Run(t, interval, events).secondary, Lag(t, interval, events))
  {
    if events != [] {
      LagMeaning(t, interval, events[..|events| - 1]);
    }
  }

  /** Where the counter stands between two periodic writes to the secondary. */
  function Phase(count: Uint64, interval: SyncInterval): (phase: nat)
    ensures phase < interval
  {
    count % interval
  }

  lemma {:induction false} LagBound(t: Tracker, interval: SyncInterval, events: seq<Event>)
    requires t.updateCount == 0
    ensures Lag(t, interval, events)
         <= Restarts(events) * (interval - 1) + Phase(Run(t, interval, events).updateCount, interval)
  {
    if events == [] {
      assert 0 % interval == 0 by { DivModUnique(0, interval, 0, 0); }
    } else {
      LagBound(t, interval, events[..|events| - 1]);
      LagStep(t, interval, events);
    }
  }

  lemma LagStep(t: Tracker, interval: SyncInterval, events: seq<Event>)
    requires events != []
    requires var before := events[..|events| - 1];
      Lag(t, interval, before)
      <= Restarts(before) * (interval - 1) + Phase(Run(t, interval, before).updateCount, interval)
    ensures Lag(t, interval, events)
         <= Restarts(events) * (interval - 1) + Phase(Run(t, interval, events).updateCount, interval)
  {
    var before, e := events[..|events| - 1], events[|events| - 1];
    var mid := Run(t, interval, before);
    BudgetGrows(Restarts(before), interval);
    if e.Save? && !Syncs(mid, interval, e.writeFaults) {
      NextRemainder(mid.updateCount, interval);
    }
  }

  lemma BudgetGrows(restarts: nat, interval: SyncInterval)
    ensures 0 <= restarts * (interval - 1) && (restarts + 1) * (interval - 1) == restarts * (interval - 1) + (interval - 1)
  {
    MulMono(0, restarts, interval - 1);
  }

  lemma NextRemainder(count: Uint64, interval: SyncInterval)
    requires (count + 1) % UINT64_SIZE % interval != 0
    ensures (count + 1) % UINT64_SIZE % interval == count % interval + 1
  {
    if count + 1 == UINT64_SIZE {
      DivModUnique(0, interval, 0, 0);
    }
    RemainderStep(count, interval);
  }

  /** A run of healthy lives, each saving one time less than the interval: no
      periodic write ever happens. */
  function WorstRun(interval: SyncInterval, restarts: nat, saves: nat): (events: seq<Event>)
    decreases restarts, saves
  {
    if saves > 0 then
      WorstRun(interval, restarts, saves - 1) + [Save(Progress(saves, 0, 0), WriteFaults(Acked, Acked))]
    else if restarts > 0 then
      WorstRun(interval, restarts - 1, interval - 1) + [Restart]
    else []
  }

  ghost predicate IsWorst(t: Tracker, interval: SyncInterval, events: seq<Event>, restarts: nat, saves: nat, lag: int) {
    && SecondaryAcks(events)
    && Restarts(events) == restarts
    && Run(t, interval, events).updateCount == saves
    && Run(t, interval, events).primaryHealthy
    && Lag(t, interval, events) == lag
  }

  lemma WorstSave(t: Tracker, interval: SyncInterval, before: seq<Event>, restarts: nat, saves: nat, lag: int)
    requires IsWorst(t, interval, before, restarts, saves, lag) && saves + 1 < interval
    ensures IsWorst(t, interval, before + [Save(Progress(saves + 1, 0, 0), WriteFaults(Acked, Acked))], restarts, saves + 1, lag + 1)
  {
    var events := before + [Save(Progress(saves + 1, 0, 0), WriteFaults(Acked, Acked))];
    assert events[..|events| - 1] == before;
    DivModUnique(saves + 1, interval, 0, saves + 1);
  }

  lemma WorstRestart(t: Tracker, interval: SyncInterval, before: seq<Event>, restarts: nat, saves: nat, lag: int)
    requires IsWorst(t, interval, before, restarts, saves, lag)
    ensures IsWorst(t, interval, before + [Restart], restarts + 1, 0, lag)
  {
    var events := before + [Restart];
    assert events[..|events| - 1] == before;
  }

  lemma {:induction false} WorstLag(t: Tracker, interval: SyncInterval, restarts: nat, saves: nat)
    requires t.updateCount == 0 && t.primaryHealthy && saves < interval
    ensures IsWorst(t, interval, WorstRun(interval, restarts, saves), restarts, saves, restarts * (interval - 1) + saves)
    decreases restarts, saves
  {
    if saves > 0 {
      WorstLag(t, interval, restarts, saves - 1);
      WorstSave(t, interval, WorstRun(interval, restarts, saves - 1), restarts, saves - 1, restarts * (interval - 1) + saves - 1);
    } else if restarts > 0 {
      WorstLag(t, interval, restarts - 1, interval - 1);
      assert restarts * (interval - 1) == (restarts - 1) * (interval - 1) + (interval - 1);
      WorstRestart(t, interval, WorstRun(interval, restarts - 1, interval - 1), restarts - 1, interval - 1, restarts * (interval - 1));
    }
  }

  /** "At most syncInterval batches behind" holds of all runs with a given number
      of restarts exactly when the counter, which every restart clears, leaves
      room for it: in one lifetime always, after a restart only for intervals of
      one and two. */
  lemma {:induction false} DocumentedBound(t: Tracker, interval: SyncInterval, restarts: nat)
    requires t.updateCount == 0 && t.primaryHealthy
    ensures (forall events :: SecondaryAcks(events) && Restarts(events) == restarts ==> Lag(t, interval, events) <= interval)
       <==> (restarts + 1) * (interval - 1) <= interval
  {
    assert (restarts + 1) * (interval - 1) == restarts * (interval - 1) + (interval - 1);
    forall events | SecondaryAcks(events) && Restarts(events) == restarts
      ensures Lag(t, interval, events) <= (restarts + 1) * (interval - 1)
    {
      LagBound(t, interval, events);
    }
    WorstLag(t, interval, restarts, interval - 1);
  }

  // ----- What a reported success means -----

  /** An update reports success exactly when a store acknowledged it: the primary while it
      was trusted, or otherwise the secondary. Then the next read that reaches the stores
      answers with it. */
  lemma SavedIsRead(t: Tracker, interval: SyncInterval, p: Progress, f: WriteFaults)
    ensures var (t', ok) := Update(t, interval, p, f);
      && (t.primaryHealthy && f.primary.Acked? ==> ok && t'.primaryHealthy && t'.primary == Some(p))
      && (!(t.primaryHealthy && f.primary.Acked?) ==> !t'.primaryHealthy && (ok <==> f.secondary.Acked?))
      && (ok ==> Get(t', ReadFaults(true, true)).1 == Ok(p))
  {
  }

  /** Both stores are reset, as far as the network lets them. The reset reports success
      exactly when the secondary acknowledged it, and then the secondary answers the
      default; if both did, so does every read that is answered. */
  lemma ResetIsRead(t: Tracker, f: WriteFaults, r: ReadFaults)
    ensures var (t', ok) := Reset(t, f);
      && (ok <==> f.secondary.Acked?)
      && (ok && (!t'.primaryHealthy || !r.primaryOk) && r.secondaryOk ==> Get(t', r).1 == Ok(DEFAULT_PROGRESS))
      && (ok && f.primary.Acked? && Get(t', r).1.Ok? ==> Get(t', r).1 == Ok(DEFAULT_PROGRESS))
  {
  }

  /** No probe finds the primary well again and no new process starts. */
  ghost predicate NoTrust(events: seq<Event>) {
    forall i :: 0 <= i < |events| ==> !events[i].Restart? && events[i] != Probe(true)
  }

  /** A read or a save that the primary does not answer takes it out of use. */
  lemma FailureEndsTrust(t: Tracker, interval: SyncInterval, e: Event)
    requires (e.Read? && !e.readFaults.primaryOk) || (e.Save? && !e.writeFaults.primary.Acked?)
    ensures !Run(t, interval, [e]).primaryHealthy
  {
    assert [e][..0] == [];
    assert Run(t, interval, []) == t;
  }

  /** Once out of use it stays so until a probe or a new process: meanwhile no save
      touches it, every read is answered by the secondary or not at all, and an
      acknowledged save is what the next answer tells. */
  lemma {:induction false} OutageLasts(t: Tracker, interval: SyncInterval, events: seq<Event>)
    requires !t.primaryHealthy && NoTrust(events)
    ensures !Run(t, interval, events).primaryHealthy
    ensures (forall i :: 0 <= i < |events| ==> !events[i].Revert? && !events[i].ResetBoth?) ==> Run(t, interval, events).primary == t.primary
    ensures forall f: ReadFaults :: var u := Run(t, interval, events);
      Get(u, f).1 == if !f.secondaryOk then Err else if u.secondary.Some? then Ok(u.secondary.value) else Ok(DEFAULT_PROGRESS)
    ensures events != [] && events[|events| - 1].Save? && events[|events| - 1].writeFaults.secondary.Acked? ==>
      Run(t, interval, events).secondary == Some(events[|events| - 1].p)
  {
    if events != [] {
      OutageLasts(t, interval, events[..|events| - 1]);
    }
  }

  // ----- Where answers come from -----

  ghost predicate Known(t: Tracker, events: seq<Event>, row: Option<Progress>) {
    row == None || row == t.primary || row == t.secondary || row.value in Saves(events)
  }

  lemma KnownLater(t: Tracker, events: seq<Event>, age: nat, row: Option<Progress>)
    requires age <= |events| && Known(t, events[..age], row)
    ensures Known(t, events, row)
  {
    if age < |events| {
      var before := events[..|events| - 1];
      assert before[..age] == events[..age];
      KnownLater(t, before, age, row);
    } else {
      assert events[..age] == events;
    }
  }

  lemma {:induction false} RowsAreKnown(t: Tracker, interval: SyncInterval, events: seq<Event>)
    ensures Known(t, events, Run(t, interval, events).primary)
    ensures Known(t, events, Run(t, interval, events).secondary)
    decreases |events|
  {
    if events != [] {
      var before, e := events[..|events| - 1], events[|events| - 1];
      RowsAreKnown(t, interval, before);
      KnownLater(t, events, |before|, Run(t, interval, before).primary);
      KnownLater(t, events, |before|, Run(t, interval, before).secondary);
      if e.Revert? && e.age < |before| {
        RowsAreKnown(t, interval, before[..e.age]);
        assert before[..e.age] == events[..e.age];
        KnownLater(t, events, e.age, Run(t, interval, before[..e.age]).primary);
      }
    }
  }

  /** Whatever fails, flips, goes stale or restarts, a read answers a row that was
      saved, a row the stores began with, or the default. */
  lemma ReadsWhatWasWritten(t: Tracker, interval: SyncInterval, events: seq<Event>, f: ReadFaults)
    ensures var answer := Get(Run(t, interval, events), f).1;
      answer.Ok? ==>
        answer.value in Saves(events) + [Held(t.primary), Held(t.secondary), DEFAULT_PROGRESS]
  {
    RowsAreKnown(t, interval, events);
  }
}
