/** One endpoint row and what each SQL statement of internal/db/db.go does to it,
    together with the decision processEndpoint (internal/scheduler/scheduler.go)
    takes from a snapshot of the row and a ping result.

    Each statement is atomic. The functions here say what a single row looks like
    after the statement; `Store` runs the statements over the tables. */
module Endpoints {
  import opened Common
  import opened Conditions

  datatype State = Unknown | Live | Warning | Offline | Deactivated

  datatype Reason = Manual | TimeLimitExpired | NotifyOnceConditionMatched

  datatype Row = Row(
    pingIntervalSeconds: int,
    deactivateAfterSeconds: Option<int>,
    notifyCondition: Condition,
    notifyOnce: bool,
    screenshotOnMatch: bool,
    active: bool,
    state: State,
    nextRunAt: Option<Time>,
    deactivateAt: Option<Time>,
    deactivatedReason: Option<Reason>,
    notifiedAt: Option<Time>,
    lockedUntil: Option<Time>,
    lastCheckedAt: Option<Time>,
    lastStatusCode: Option<int>,
    lastResponseLength: Option<int>,
    baselineStatusCode: Option<int>,
    baselineResponseLength: Option<int>,
    version: nat)

  // The fields of an EndpointRecord that later steps depend on.
  datatype EndpointRecord = EndpointRecord(
    pingIntervalSeconds: int,
    deactivateAfterSeconds: Option<int>,
    notifyCondition: Condition,
    continueOnMatch: bool,
    screenshotOnMatch: bool,
    active: bool)

  // What processEndpoint hands to RecordPingResult besides the snapshot and the result.
  datatype Outcome = Outcome(
    matched: bool,
    nextRun: Option<Time>,
    baselineStatus: Option<int>,
    baselineLength: Option<int>)

  function DeactivateDeadline(now: Time, seconds: Option<int>): Option<Time> {
    if seconds.None? then None else Some(now + seconds.value * SECOND)
  }

  function Created(record: EndpointRecord, now: Time): Row {
    Row(record.pingIntervalSeconds, record.deactivateAfterSeconds, record.notifyCondition,
        !record.continueOnMatch, record.screenshotOnMatch, record.active,
        if record.active then Unknown else Deactivated,
        if record.active then Some(now) else None,
        if record.active then DeactivateDeadline(now, record.deactivateAfterSeconds) else None,
        None, None, None, None, None, None, None, None, 1)
  }

  /** UpdateEndpoint: `current` was read before the write and may be stale. */
  function Updated(row: Row, current: Row, record: EndpointRecord, intervalChanged: bool, now: Time): Row {
    var reactivated := record.active && !current.active;
    row.(pingIntervalSeconds := record.pingIntervalSeconds,
         deactivateAfterSeconds := record.deactivateAfterSeconds,
         notifyCondition := record.notifyCondition,
         notifyOnce := !record.continueOnMatch,
         screenshotOnMatch := record.screenshotOnMatch,
         active := record.active,
         state := if !record.active then Deactivated else if reactivated then Unknown else current.state,
         nextRunAt := if !record.active then None
                      else if !current.active || intervalChanged then Some(now)
                      else current.nextRunAt,
         deactivateAt := if record.active then DeactivateDeadline(now, record.deactivateAfterSeconds) else None,
         deactivatedReason := if !record.active then Some(Manual)
                              else if reactivated then None
                              else current.deactivatedReason,
         notifiedAt := if reactivated then None else current.notifiedAt,
         lockedUntil := None,
         version := row.version + 1)
  }

  function Activated(row: Row, now: Time): Row {
    row.(active := true, state := Unknown, nextRunAt := Some(now), notifiedAt := None,
         deactivateAt := DeactivateDeadline(now, row.deactivateAfterSeconds),
         deactivatedReason := None, lockedUntil := None, version := row.version + 1)
  }

  function TurnedOff(row: Row, reason: Reason): Row {
    row.(active := false, state := Deactivated, nextRunAt := None, deactivateAt := None,
         deactivatedReason := Some(reason), lockedUntil := None, version := row.version + 1)
  }

  predicate IsExpired(row: Row, now: Time) {
    row.active && row.deactivateAt.Some? && row.deactivateAt.value <= now
  }

  /** DeactivateExpiredEndpoints, seen by one row. */
  function Swept(row: Row, now: Time): Row {
    if IsExpired(row, now) then TurnedOff(row, TimeLimitExpired) else row
  }

  predicate IsDue(row: Row, now: Time) {
    && row.active
    && row.nextRunAt.Some? && row.nextRunAt.value <= now
    && (row.lockedUntil.None? || row.lockedUntil.value < now)
  }

  function Locked(row: Row, now: Time, lockFor: Time): Row {
    row.(lockedUntil := Some(now + lockFor))
  }

  /** What ResumeAfterDowntime has to make up for; nothing on a first start or when the clock went back. */
  function TimeSince(lastSeen: Option<Time>, now: Time): Time {
    if lastSeen.Some? && now > lastSeen.value then now - lastSeen.value else 0
  }

  /** ResumeAfterDowntime, seen by one row. */
  function Extended(row: Row, downtime: Time): Row {
    if row.active && row.deactivateAt.Some?
    then row.(deactivateAt := Some(row.deactivateAt.value + downtime))
    else row
  }

  function StateForResult(active: bool, result: PingResult): State {
    if !active then Deactivated
    else if result.statusCode.None? then Offline
    else if 100 <= result.statusCode.value <= 399 then Live
    else Warning
  }

  /** processEndpoint up to the call of RecordPingResult. A condition that cannot
      be evaluated leaves the baseline of the snapshot in place. */
  function Process(snap: Row, result: PingResult, evaluate: bool): Outcome {
    var verdict := if evaluate
                   then Matches(snap.notifyCondition, snap.baselineStatusCode, snap.baselineResponseLength, result)
                   else Some(false);
    var matched := verdict == Some(true);
    Outcome(
      matched,
      if snap.active && (!matched || !snap.notifyOnce)
      then Some(result.finishedAt + snap.pingIntervalSeconds * SECOND)
      else None,
      if verdict.Some? then NextStatus(snap.baselineStatusCode, result) else snap.baselineStatusCode,
      if verdict.Some? then NextLength(snap.baselineResponseLength, result) else snap.baselineResponseLength)
  }

  /** A match recorded from an active snapshot raises a notification event. */
  predicate Notifies(snap: Row, outcome: Outcome) {
    outcome.matched && snap.active
  }

  /** A notify-once event also switches the endpoint off. */
  predicate NotifiesOnce(snap: Row, outcome: Outcome) {
    Notifies(snap, outcome) && snap.notifyOnce
  }

  /** The row after RecordPingResult. Every decision is taken from the snapshot `snap`,
      which may no longer agree with `row`. */
  function Recorded(row: Row, snap: Row, result: PingResult, outcome: Outcome, manual: bool, now: Time): Row {
    var checked := row.(
      lastCheckedAt := Some(result.finishedAt),
      lastStatusCode := result.statusCode,
      lastResponseLength := result.responseLength,
      baselineStatusCode := outcome.baselineStatus,
      baselineResponseLength := outcome.baselineLength,
      lockedUntil := None,
      version := row.version + 1);
    if NotifiesOnce(snap, outcome) then
      checked.(active := false, state := Deactivated, nextRunAt := None, deactivateAt := None,
               notifiedAt := Some(now), deactivatedReason := Some(NotifyOnceConditionMatched))
    else
      checked.(state := if snap.active || manual then StateForResult(true, result) else Deactivated,
               nextRunAt := if snap.active then outcome.nextRun else None,
               notifiedAt := if Notifies(snap, outcome) then Some(now) else row.notifiedAt)
  }

  /** What LockDueEndpoints may select from `rows`: the `limit` due rows with the
      earliest next_run_at, ties broken either way, or all due rows if there are fewer. */
  ghost predicate IsDueBatch(rows: map<Id, Row>, picked: set<Id>, limit: nat, now: Time) {
    && (forall id :: id in picked ==> id in rows && IsDue(rows[id], now))
    && |picked| <= limit
    && (forall id :: id in rows && IsDue(rows[id], now) && id !in picked ==>
          && |picked| == limit
          && forall other :: other in picked ==> rows[other].nextRunAt.value <= rows[id].nextRunAt.value)
  }

  function SweptRows(rows: map<Id, Row>, now: Time): (r: map<Id, Row>)
    ensures r.Keys == rows.Keys
  {
    map id | id in rows :: Swept(rows[id], now)
  }

  function LockedRows(rows: map<Id, Row>, picked: set<Id>, now: Time, lockFor: Time): (r: map<Id, Row>)
    ensures r.Keys == rows.Keys
  {
    map id | id in rows :: if id in picked then Locked(rows[id], now, lockFor) else rows[id]
  }

  function ExtendedRows(rows: map<Id, Row>, downtime: Time): (r: map<Id, Row>)
    ensures r.Keys == rows.Keys
  {
    map id | id in rows :: Extended(rows[id], downtime)
  }
}
