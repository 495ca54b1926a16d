/** The workers over the store: one scheduler tick and one dispatch tick
    (internal/scheduler/scheduler.go), one screenshot tick (internal/screenshots/service.go). */
module Services {
  import opened Common
  import opened Conditions
  import opened Endpoints
  import opened Outbox
  import opened Store
  import Scheduling
  import Monitor
  import OutboxProgress

  /** processEndpoint up to the record. */
  method Decide(snap: Row, result: PingResult, evaluate: bool) returns (outcome: Outcome)
    ensures outcome == Process(snap, result, evaluate)
    ensures !evaluate ==> !outcome.matched
    ensures outcome.nextRun == if snap.active && !(outcome.matched && snap.notifyOnce)
                               then Some(result.finishedAt + snap.pingIntervalSeconds * SECOND) else None
  {
    var matched, baselineStatus, baselineLength := false, snap.baselineStatusCode, snap.baselineResponseLength;
    if evaluate {
      var evaluation, ok := Evaluate(snap.notifyCondition, snap.baselineStatusCode, snap.baselineResponseLength, result);
      if ok {
        matched, baselineStatus, baselineLength := evaluation.matched, evaluation.baselineStatus, evaluation.baselineLength;
      }
    } else {
      if result.statusCode.Some? {
        baselineStatus := result.statusCode;
      }
      if result.responseLength.Some? && !result.truncated {
        baselineLength := result.responseLength;
      }
    }
    var nextRun: Option<Time> := None;
    if snap.active && (!matched || !snap.notifyOnce) {
      nextRun := Some(result.finishedAt + snap.pingIntervalSeconds * SECOND);
    }
    outcome := Outcome(matched, nextRun, baselineStatus, baselineLength);
  }

  /** processEndpoint: `evaluate` is false only for a manual ping of an inactive endpoint. */
  method ProcessEndpoint(store: Database, id: Id, snap: Row, result: PingResult, evaluate: bool, manual: bool, now: Time)
    returns (ids: Option<FreshIds>)
    requires store.Valid()
    modifies store`rows, store`checks, store`events, store`attempts
    ensures Monitor.RowOk(snap) && (snap.active || manual) ==> store.Valid()
    ensures ids.Some? <==> id in old(store.rows)
    ensures ids.None? ==> store.rows == old(store.rows) && store.Outboxes() == old(store.Outboxes())
    ensures ids.Some? ==>
              var outcome := Process(snap, result, evaluate);
              && store.rows == old(store.rows)[id := Recorded(old(store.rows)[id], snap, result, outcome, manual, now)]
              && Inserted(old(store.Outboxes()), store.Outboxes(), ids.value, id, snap, outcome, now)
  {
    var outcome := Decide(snap, result, evaluate);
    ids := store.RecordPingResult(id, snap, result, outcome, manual, now);
  }

  /** PingNow. The snapshot may be older than the row it is recorded on. */
  method PingNow(store: Database, id: Id, snap: Row, result: PingResult, now: Time) returns (ids: Option<FreshIds>)
    requires store.Valid()
    modifies store`rows, store`checks, store`events, store`attempts
    ensures Monitor.RowOk(snap) ==> store.Valid()
    ensures ids.Some? <==> id in old(store.rows)
    ensures ids.None? ==> store.rows == old(store.rows) && store.Outboxes() == old(store.Outboxes())
    ensures ids.Some? ==>
              var outcome := Process(snap, result, snap.active);
              && store.rows == old(store.rows)[id := Recorded(old(store.rows)[id], snap, result, outcome, true, now)]
              && Inserted(old(store.Outboxes()), store.Outboxes(), ids.value, id, snap, outcome, now)
  {
    ids := ProcessEndpoint(store, id, snap, result, snap.active, true, now);
  }

  // ---------------------------------------------------------------- what one tick writes to the outboxes

  /** Nothing that was there is changed or gone. */
  ghost predicate Keeps(before: Tables, after: Tables) {
    && (forall id :: id in before.checks ==> id in after.checks && after.checks[id] == before.checks[id])
    && (forall id :: id in before.events ==> id in after.events && after.events[id] == before.events[id])
    && (forall id :: id in before.attempts ==> id in after.attempts && after.attempts[id] == before.attempts[id])
  }

  /** Whether the ping of `id` in this round raises a notification. */
  predicate Raises(before: Scheduling.Table, round: Scheduling.Round, id: Id) {
    && id in before && id in round.results
    && var snap := Swept(before[id], round.now); Notifies(snap, Process(snap, round.results[id], true))
  }

  function Raising(before: Scheduling.Table, round: Scheduling.Round, done: set<Id>): set<Id> {
    set id | id in done && Raises(before, round, id)
  }

  function Pictured(before: Scheduling.Table, round: Scheduling.Round, done: set<Id>): set<Id> {
    set id | id in done && Raises(before, round, id) && before[id].screenshotOnMatch
  }

  // What was added to the outboxes, and whether everything older is untouched.
  datatype Writes = Writes(keeps: bool, checks: int, events: int, attempts: int)

  ghost function Written(start: Tables, t: Tables): Writes {
    Writes(Keeps(start, t), |t.checks| - |start.checks|, |t.events| - |start.events|, |t.attempts| - |start.attempts|)
  }

  /** Working off the pings of `done` adds one check for every result, one event for every
      notification raised and one attempt for every screenshot wanted. */
  ghost function Wanted(before: Scheduling.Table, round: Scheduling.Round, done: set<Id>): Writes {
    Writes(true, |done * round.results.Keys|, |Raising(before, round, done)|, |Pictured(before, round, done)|)
  }

  lemma NothingWritten(start: Tables, before: Scheduling.Table, round: Scheduling.Round)
    ensures Written(start, start) == Wanted(before, round, {})
  {
    assert {} * round.results.Keys == {};
  }

  lemma DropWritesNothing(before: Scheduling.Table, round: Scheduling.Round, done: set<Id>, id: Id)
    requires id !in round.results
    ensures Wanted(before, round, done + {id}) == Wanted(before, round, done)
  {
    assert (done + {id}) * round.results.Keys == done * round.results.Keys;
    assert Raising(before, round, done + {id}) == Raising(before, round, done);
    assert Pictured(before, round, done + {id}) == Pictured(before, round, done);
  }

  function OneMore(writes: Writes, raises: bool, pictured: bool): Writes {
    Writes(writes.keeps, writes.checks + 1, writes.events + (if raises then 1 else 0),
           writes.attempts + if raises && pictured then 1 else 0)
  }

  lemma InsertWrites(start: Tables, t: Tables, t': Tables, ids: FreshIds, id: Id, snap: Row, outcome: Outcome, now: Time)
    requires Keeps(start, t) && Inserted(t, t', ids, id, snap, outcome, now)
    ensures Written(start, t') == OneMore(Written(start, t), Notifies(snap, outcome), snap.screenshotOnMatch)
  {
  }

  lemma RaisingGrows(before: Scheduling.Table, round: Scheduling.Round, done: set<Id>, id: Id)
    requires id !in done
    ensures |Raising(before, round, done + {id})|
         == |Raising(before, round, done)| + if Raises(before, round, id) then 1 else 0
  {
    var more := if Raises(before, round, id) then {id} else {};
    assert Raising(before, round, done + {id}) == Raising(before, round, done) + more;
    assert Raising(before, round, done) !! more;
  }

  lemma PicturedGrows(before: Scheduling.Table, round: Scheduling.Round, done: set<Id>, id: Id)
    requires id !in done
    ensures |Pictured(before, round, done + {id})|
         == |Pictured(before, round, done)| + if Raises(before, round, id) && before[id].screenshotOnMatch then 1 else 0
  {
    var more := if Raises(before, round, id) && before[id].screenshotOnMatch then {id} else {};
    assert Pictured(before, round, done + {id}) == Pictured(before, round, done) + more;
    assert Pictured(before, round, done) !! more;
  }

  lemma PingIsWanted(before: Scheduling.Table, round: Scheduling.Round, done: set<Id>, id: Id)
    requires id !in done && id in before && id in round.results
    ensures Wanted(before, round, done + {id})
         == OneMore(Wanted(before, round, done), Raises(before, round, id), before[id].screenshotOnMatch)
  {
    assert (done + {id}) * round.results.Keys == done * round.results.Keys + {id};
    RaisingGrows(before, round, done, id);
    PicturedGrows(before, round, done, id);
  }

  /** One job: the ping of one locked endpoint, recorded if its result came back. */
  method WorkOne(store: Database, id: Id, snap: Row, results: map<Id, PingResult>,
                 ghost start: Tables, ghost before: Scheduling.Table, ghost round: Scheduling.Round, ghost done: set<Id>)
    requires store.Valid() && Monitor.RowOk(snap) && snap.active
    requires round.results == results && id in round.picked && id !in done
    requires id in before && snap == Swept(before[id], round.now)
    requires store.rows == Scheduling.During(before, round, done) && Written(start, store.Outboxes()) == Wanted(before, round, done)
    modifies store`rows, store`checks, store`events, store`attempts
    ensures store.Valid()
    ensures store.rows == Scheduling.During(before, round, done + {id})
    ensures Written(start, store.Outboxes()) == Wanted(before, round, done + {id})
  {
    ghost var t := store.Outboxes();
    Scheduling.DuringRound(before, round, done, id);
    if id in results {
      var ids := ProcessEndpoint(store, id, snap, results[id], true, false, results[id].finishedAt);
      InsertWrites(start, t, store.Outboxes(), ids.value, id, snap, Process(snap, results[id], true), results[id].finishedAt);
      PingIsWanted(before, round, done, id);
    } else {
      DropWritesNothing(before, round, done, id);
    }
  }

  /** The workers of one tick. They run concurrently, but they record different
      endpoints, so the order of the loop does not matter. */
  method WorkOff(store: Database, locked: seq<Id>, snapshots: map<Id, Row>, results: map<Id, PingResult>,
                 ghost before: Scheduling.Table, ghost round: Scheduling.Round)
    requires store.Valid() && forall id :: id in snapshots ==> Monitor.RowOk(snapshots[id]) && snapshots[id].active
    requires Distinct(locked) && round.picked == Elements(locked) && round.results == results
    requires forall id :: id in locked ==> id in before && id in snapshots && snapshots[id] == Swept(before[id], round.now)
    requires store.rows == Scheduling.During(before, round, {})
    modifies store`rows, store`checks, store`events, store`attempts
    ensures store.Valid()
    ensures store.rows == Scheduling.During(before, round, round.picked)
    ensures Written(old(store.Outboxes()), store.Outboxes()) == Wanted(before, round, round.picked)
  {
    ghost var start := store.Outboxes();
    NothingWritten(start, before, round);
    for i := 0 to |locked|
      invariant store.Valid()
      invariant store.rows == Scheduling.During(before, round, Elements(locked[..i]))
      invariant Written(start, store.Outboxes()) == Wanted(before, round, Elements(locked[..i]))
    {
      ElementsGrow(locked, i);
      assert locked[i] in locked;
      WorkOne(store, locked[i], snapshots[locked[i]], results, start, before, round, Elements(locked[..i]));
    }
    assert locked[..|locked|] == locked;
  }

  /** One tick of the scheduler. `results` holds the ping results that come back; a
      picked endpoint without one was dropped. */
  method RunDueOnce(store: Database, concurrency: int, lockFor: Time, now: Time, results: map<Id, PingResult>)
    returns (ghost round: Scheduling.Round)
    requires store.Valid()
    modifies store`rows, store`checks, store`events, store`attempts
    ensures store.Valid()
    ensures round.now == now && round.lockFor == lockFor && round.results == results
    ensures IsDueBatch(SweptRows(old(store.rows), now), round.picked, if concurrency <= 0 then 1 else concurrency, now)
    ensures store.rows == Scheduling.AfterRound(old(store.rows), round)
    ensures Written(old(store.Outboxes()), store.Outboxes()) == Wanted(old(store.rows), round, round.picked)
  {
    var limit := if concurrency <= 0 then 1 else concurrency;
    var locked, snapshots := store.LockDueEndpoints(limit, lockFor, now);
    round := Scheduling.Round(now, lockFor, Elements(locked), results);
    Scheduling.DuringEnds(old(store.rows), round);
    WorkOff(store, locked, snapshots, results, old(store.rows), round);
  }

  /** One tick of the dispatcher with every mark stored; `delivered` says which sends succeed. */
  method DispatchNotificationsOnce(store: Database, now: Time, delivered: set<Id>, markedAt: Time)
    returns (ghost round: OutboxProgress.Round)
    requires store.Valid()
    modifies store`events
    ensures store.Valid()
    ensures round.now == now && round.delivered == delivered && round.markedAt == markedAt
    ensures OutboxProgress.CanRun(old(store.events), round)
    ensures store.events == OutboxProgress.AfterRound(old(store.events), round)
    ensures store.events.Keys == old(store.events).Keys
    ensures forall id :: id in store.events ==>
              if id !in round.picked then store.events[id] == old(store.events)[id]
              else if id in delivered then store.events[id].status == Sent && store.events[id].attempts == old(store.events)[id].attempts
              else store.events[id].status == Failed && store.events[id].attempts == old(store.events)[id].attempts + 1
  {
    var picked := store.DueNotificationEvents(DISPATCH_LIMIT, now);
    round := OutboxProgress.Round(now, picked, delivered, markedAt);
    for i := 0 to |picked|
      invariant store.Valid()
      invariant store.events == OutboxProgress.AfterRound(old(store.events), round.(picked := picked[..i]))
    {
      OutboxProgress.RoundGrows(old(store.events), round, i);
      if picked[i] !in delivered {
        store.MarkNotificationFailed(picked[i], markedAt);
        continue;
      }
      store.MarkNotificationSent(picked[i], markedAt);
    }
    assert picked[..|picked|] == picked;
  }

  /** The status an attempt ends a tick with once it was claimed. `outcomes` gives the
      final status each capture reaches; without one the mark was lost. */
  function ShotStatus(id: Id, outcomes: map<Id, AttemptStatus>): AttemptStatus {
    if id in outcomes then outcomes[id] else Capturing
  }

  /** The attempts after those of `done` were captured. */
  function Shot(attempts: map<Id, Attempt>, done: set<Id>, outcomes: map<Id, AttemptStatus>): map<Id, Attempt> {
    map id | id in attempts ::
      if id in done then attempts[id].(status := ShotStatus(id, outcomes)) else attempts[id]
  }

  lemma SweepTwice(rows: map<Id, Row>, now: Time)
    ensures SweptRows(SweptRows(rows, now), now) == SweptRows(rows, now)
  {
  }

  lemma ShotGrows(attempts: map<Id, Attempt>, done: set<Id>, id: Id, outcomes: map<Id, AttemptStatus>)
    requires id !in done && id in attempts
    ensures var shot := Shot(attempts, done, outcomes);
            && id in shot && shot[id] == attempts[id]
            && MarkAttempt(shot, id, ShotStatus(id, outcomes)) == Shot(attempts, done + {id}, outcomes)
  {
  }

  lemma MarkTwice(attempts: map<Id, Attempt>, id: Id, first: AttemptStatus, second: AttemptStatus)
    ensures MarkAttempt(MarkAttempt(attempts, id, first), id, second) == MarkAttempt(attempts, id, second)
  {
  }

  /** process: a capture of one attempt, if it can still be claimed. The endpoint of an
      attempt is always there as long as nothing runs in between. */
  method Capture(store: Database, id: Id, outcomes: map<Id, AttemptStatus>, now: Time) returns (claimed: bool)
    requires store.Valid()
    modifies store`rows, store`attempts
    ensures store.Valid()
    ensures claimed <==> id in old(store.attempts) && old(store.attempts)[id].status == Waiting
    ensures store.attempts == if claimed then MarkAttempt(old(store.attempts), id, ShotStatus(id, outcomes))
                                         else old(store.attempts)
    ensures store.rows == if claimed then SweptRows(old(store.rows), now) else old(store.rows)
  {
    claimed := store.MarkScreenshotCapturing(id);
    if !claimed {
      return;
    }
    var endpoint := store.GetEndpoint(store.attempts[id].endpoint, now);
    if endpoint.None? {
      assert false;
    }
    if id in outcomes {
      MarkTwice(old(store.attempts), id, Capturing, outcomes[id]);
      store.MarkScreenshot(id, outcomes[id]);
    }
  }

  /** The loop over the selected attempts. */
  method CaptureAll(store: Database, picked: seq<Id>, outcomes: map<Id, AttemptStatus>, now: Time)
    requires store.Valid() && Distinct(picked)
    requires forall id :: id in picked ==> id in store.attempts && store.attempts[id].status == Waiting
    modifies store`rows, store`attempts
    ensures store.Valid()
    ensures store.attempts == Shot(old(store.attempts), Elements(picked), outcomes)
    ensures store.rows == if picked == [] then old(store.rows) else SweptRows(old(store.rows), now)
  {
    SweepTwice(store.rows, now);
    for i := 0 to |picked|
      invariant store.Valid()
      invariant store.attempts == Shot(old(store.attempts), Elements(picked[..i]), outcomes)
      invariant store.rows == if i == 0 then old(store.rows) else SweptRows(old(store.rows), now)
    {
      ElementsGrow(picked, i);
      assert picked[i] in picked;
      ShotGrows(old(store.attempts), Elements(picked[..i]), picked[i], outcomes);
      var _ := Capture(store, picked[i], outcomes, now);
    }
    assert picked[..|picked|] == picked;
  }

  lemma DueAreWaiting(t: Tables, picked: seq<Id>, limit: nat)
    requires IsAttemptBatch(t, picked, limit)
    ensures Distinct(picked) && forall id :: id in picked ==> id in t.attempts && t.attempts[id].status == Waiting
  {
    assert forall id :: id in picked ==> IsDueAttempt(t, id);
  }

  lemma ShotMeans(attempts: map<Id, Attempt>, picked: seq<Id>, outcomes: map<Id, AttemptStatus>)
    ensures var shot := Shot(attempts, Elements(picked), outcomes);
            && shot.Keys == attempts.Keys
            && forall id :: id in shot ==>
                 shot[id] == if id !in picked then attempts[id]
                             else attempts[id].(status := if id in outcomes then outcomes[id] else Capturing)
  {
  }

  /** One tick of the screenshot worker: it captures the batch of due attempts, each
      pending with its event sent, and nothing else. Loading an endpoint sweeps the expired ones. */
  method RunScreenshotsOnce(store: Database, limit: int, outcomes: map<Id, AttemptStatus>, now: Time)
    returns (picked: seq<Id>)
    requires store.Valid()
    modifies store`rows, store`attempts
    ensures store.Valid()
    ensures IsAttemptBatch(old(store.Outboxes()), picked, if limit <= 0 then 1 else limit)
    ensures store.attempts == Shot(old(store.attempts), Elements(picked), outcomes)
    ensures store.attempts.Keys == old(store.attempts).Keys
    ensures forall id :: id in store.attempts ==>
              store.attempts[id] == if id !in picked then old(store.attempts)[id]
                                    else old(store.attempts)[id].(status := if id in outcomes then outcomes[id] else Capturing)
    ensures store.rows == if picked == [] then old(store.rows) else SweptRows(old(store.rows), now)
  {
    picked := store.DueScreenshotAttempts(if limit <= 0 then 1 else limit);
    DueAreWaiting(store.Outboxes(), picked, if limit <= 0 then 1 else limit);
    ShotMeans(store.attempts, picked, outcomes);
    hide IsAttemptBatch, Shot;
    CaptureAll(store, picked, outcomes, now);
  }
}
