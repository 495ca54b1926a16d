/** The notification and screenshot outboxes: the tables, the SQL statements on them
    (internal/db/db.go) and the backoff rule. */
module Outbox {
  import opened Common

  datatype EventStatus = Pending | Sent | Failed

  datatype Event = Event(endpoint: Id, status: EventStatus, attempts: nat, createdAt: Time, updatedAt: Time)

  datatype Check = Check(endpoint: Id, matched: bool, event: Option<Id>)

  datatype AttemptStatus = Waiting | Capturing | Succeeded | CaptureFailed | Unsupported

  datatype Attempt = Attempt(endpoint: Id, check: Id, event: Id, status: AttemptStatus, createdAt: Time)

  datatype Tables = Tables(checks: map<Id, Check>, events: map<Id, Event>, attempts: map<Id, Attempt>)

  const MAX_ATTEMPTS := 5
  const BACKOFF_CAP := 300
  const DISPATCH_LIMIT := 20

  // The identifiers one RecordPingResult transaction draws.
  datatype FreshIds = FreshIds(check: Id, event: Id, attempt: Id)

  /** The inserts of RecordPingResult: a check always, an event when the match is
      notified, and a screenshot attempt tied to both when the endpoint asks for one. */
  function WithRecord(t: Tables, endpoint: Id, ids: FreshIds, matched: bool, notifies: bool, shoots: bool, now: Time): Tables {
    Tables(
      t.checks[ids.check := Check(endpoint, matched, if notifies then Some(ids.event) else None)],
      if notifies then t.events[ids.event := Event(endpoint, Pending, 0, now, now)] else t.events,
      if notifies && shoots
      then t.attempts[ids.attempt := Attempt(endpoint, ids.check, ids.event, Waiting, now)]
      else t.attempts)
  }

  /** Deleting an endpoint cascades to everything that references it. */
  function WithoutEndpoint(t: Tables, endpoint: Id): Tables {
    Tables(
      map id | id in t.checks && t.checks[id].endpoint != endpoint :: t.checks[id],
      map id | id in t.events && t.events[id].endpoint != endpoint :: t.events[id],
      map id | id in t.attempts && t.attempts[id].endpoint != endpoint :: t.attempts[id])
  }

  function Power2(n: nat): nat {
    if n == 0 then 1 else 2 * Power2(n - 1)
  }

  /** Seconds a failed event rests before it is due again. */
  function BackoffSeconds(attempts: nat): int {
    if Power2(attempts) * 10 < BACKOFF_CAP then Power2(attempts) * 10 else BACKOFF_CAP
  }

  predicate IsDueEvent(event: Event, now: Time) {
    || event.status == Pending
    || (&& event.status == Failed && event.attempts < MAX_ATTEMPTS
        && event.updatedAt < now - BackoffSeconds(event.attempts) * SECOND)
  }

  function MarkedSent(event: Event, now: Time): Event {
    event.(status := Sent, updatedAt := now)
  }

  function MarkedFailed(event: Event, now: Time): Event {
    event.(status := Failed, attempts := event.attempts + 1, updatedAt := now)
  }

  function MarkEvent(events: map<Id, Event>, id: Id, delivered: bool, now: Time): map<Id, Event> {
    if id !in events then events
    else events[id := if delivered then MarkedSent(events[id], now) else MarkedFailed(events[id], now)]
  }

  function MarkAttempt(attempts: map<Id, Attempt>, id: Id, status: AttemptStatus): map<Id, Attempt> {
    if id !in attempts then attempts else attempts[id := attempts[id].(status := status)]
  }

  /** What DueNotificationEvents may return: due events, oldest first, no more than
      `limit`, and none left out for a younger one. */
  ghost predicate IsEventBatch(events: map<Id, Event>, picked: seq<Id>, limit: nat, now: Time) {
    && Distinct(picked) && |picked| <= limit
    && (forall id :: id in picked ==> id in events && IsDueEvent(events[id], now))
    && (forall i, j :: 0 <= i < j < |picked| ==> events[picked[i]].createdAt <= events[picked[j]].createdAt)
    && (forall id :: id in events && IsDueEvent(events[id], now) && id !in picked ==>
          && |picked| == limit
          && forall other :: other in picked ==> events[other].createdAt <= events[id].createdAt)
  }

  predicate IsDueAttempt(t: Tables, id: Id) {
    && id in t.attempts && t.attempts[id].status == Waiting
    && t.attempts[id].event in t.events && t.events[t.attempts[id].event].status == Sent
  }

  /** What DueScreenshotAttempts may return. */
  ghost predicate IsAttemptBatch(t: Tables, picked: seq<Id>, limit: nat) {
    && Distinct(picked) && |picked| <= limit
    && (forall id :: id in picked ==> IsDueAttempt(t, id))
    && (forall i, j :: 0 <= i < j < |picked| && picked[i] in t.attempts && picked[j] in t.attempts ==>
          t.attempts[picked[i]].createdAt <= t.attempts[picked[j]].createdAt)
    && (forall id :: IsDueAttempt(t, id) && id !in picked ==>
          && |picked| == limit
          && forall other :: other in picked ==> t.attempts[other].createdAt <= t.attempts[id].createdAt)
  }

  /** The 300-second cap never shortens the rest of an event that may still be retried. */
  lemma CapNeverReached(attempts: nat)
    requires attempts < MAX_ATTEMPTS
    ensures BackoffSeconds(attempts) == Power2(attempts) * 10 < BACKOFF_CAP
  {
    assert Power2(0) == 1 && Power2(1) == 2 && Power2(2) == 4 && Power2(3) == 8 && Power2(4) == 16;
  }

  lemma Backoffs()
    ensures BackoffSeconds(1) == 20 && BackoffSeconds(2) == 40 && BackoffSeconds(3) == 80 && BackoffSeconds(4) == 160
  {
    assert Power2(0) == 1 && Power2(1) == 2 && Power2(2) == 4 && Power2(3) == 8 && Power2(4) == 16;
  }

  /** The WHERE clause of the dispatcher: pending, or failed less than five times and at rest long enough. */
  lemma DueEventMeans(event: Event, now: Time)
    ensures IsDueEvent(event, now) <==>
            || event.status == Pending
            || (&& event.status == Failed && event.attempts < 5
                && event.updatedAt + [10, 20, 40, 80, 160][event.attempts] * SECOND < now)
  {
    Backoffs();
    assert Power2(0) == 1;
  }

  /** The JOIN and WHERE clause of the screenshot worker. */
  lemma DueAttemptMeans(t: Tables, id: Id)
    ensures IsDueAttempt(t, id) <==>
            exists attempt, event :: && id in t.attempts && t.attempts[id] == attempt && attempt.status == Waiting
                                     && attempt.event in t.events && t.events[attempt.event] == event && event.status == Sent
  {
    if id in t.attempts && t.attempts[id].event in t.events {
      var attempt := t.attempts[id];
      assert t.attempts[id] == attempt && t.events[attempt.event] == t.events[attempt.event];
    }
  }
}
