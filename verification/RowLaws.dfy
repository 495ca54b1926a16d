/** What the statements on an endpoint row mean to somebody who only looks at the row:
    when it is due, when it expires, what state it shows, and which matches switch it off
    (internal/db/db.go, internal/scheduler/scheduler.go). */
module RowLaws {
  import opened Common
  import opened Conditions
  import opened Endpoints

  /** The WHERE clause of the locking SELECT. */
  lemma DueMeans(row: Row, now: Time)
    ensures IsDue(row, now) <==>
            row.active && (exists run: Time :: row.nextRunAt == Some(run) && run <= now)
            && forall until: Time :: row.lockedUntil == Some(until) ==> until < now
  {
  }

  /** The WHERE clause of the sweep. */
  lemma ExpiredMeans(row: Row, now: Time)
    ensures IsExpired(row, now) <==> row.active && exists deadline: Time :: row.deactivateAt == Some(deadline) && deadline <= now
  {
  }

  /** An endpoint with this time limit, started at `start`, has run out of it. */
  predicate RunOut(limit: Option<int>, start: Time, at: Time) {
    limit.Some? && start + limit.value * SECOND <= at
  }

  /** A new endpoint is due at once and expires its limit later; an inactive one never does either. */
  lemma CreatedLaw(record: EndpointRecord, now: Time, at: Time)
    ensures var row := Created(record, now);
            && (IsDue(row, at) <==> record.active && now <= at)
            && (IsExpired(row, at) <==> record.active && RunOut(record.deactivateAfterSeconds, now, at))
            && row.state == (if record.active then Unknown else Deactivated)
  {
  }

  /** What the pings so far have left: the last result and the baseline. */
  predicate SameMemory(a: Row, b: Row) {
    && a.lastCheckedAt == b.lastCheckedAt && a.lastStatusCode == b.lastStatusCode
    && a.lastResponseLength == b.lastResponseLength
    && a.baselineStatusCode == b.baselineStatusCode && a.baselineResponseLength == b.baselineResponseLength
  }

  /** What the user configured. */
  predicate SameSettings(a: Row, b: Row) {
    && a.pingIntervalSeconds == b.pingIntervalSeconds && a.deactivateAfterSeconds == b.deactivateAfterSeconds
    && a.notifyCondition == b.notifyCondition && a.notifyOnce == b.notifyOnce && a.screenshotOnMatch == b.screenshotOnMatch
  }

  /** Switching on starts afresh, and keeps settings and memory. */
  lemma ActivatedLaw(row: Row, now: Time, at: Time)
    ensures var after := Activated(row, now);
            && after.active && after.state == Unknown && after.deactivatedReason == None && after.notifiedAt == None
            && (IsDue(after, at) <==> now <= at)
            && (IsExpired(after, at) <==> RunOut(row.deactivateAfterSeconds, now, at))
            && SameSettings(after, row) && SameMemory(after, row) && after.version == row.version + 1
  {
  }

  /** Switching off, by hand or by the sweep, keeps settings and memory. */
  lemma TurnedOffLaw(row: Row, reason: Reason, at: Time)
    ensures var after := TurnedOff(row, reason);
            && !after.active && after.state == Deactivated && after.deactivatedReason == Some(reason)
            && !IsDue(after, at) && !IsExpired(after, at) && after.notifiedAt == row.notifiedAt
            && SameSettings(after, row) && SameMemory(after, row) && after.version == row.version + 1
  {
  }

  /** The sweep switches off exactly what has run out of time. */
  lemma SweptLaw(row: Row, now: Time)
    ensures var over := row.active && exists deadline: Time :: row.deactivateAt == Some(deadline) && deadline <= now;
            Swept(row, now) == if over then TurnedOff(row, TimeLimitExpired) else row
  {
    ExpiredMeans(row, now);
  }

  /** The decision about a ping, from the snapshot and the result. */
  lemma ProcessLaw(snap: Row, result: PingResult, evaluate: bool)
    ensures var outcome := Process(snap, result, evaluate);
            var verdict := Matches(snap.notifyCondition, snap.baselineStatusCode, snap.baselineResponseLength, result);
            && (outcome.matched <==> evaluate && verdict == Some(true))
            && outcome.nextRun == (if !snap.active || (outcome.matched && snap.notifyOnce) then None
                                   else Some(result.finishedAt + snap.pingIntervalSeconds * SECOND))
            && (evaluate && verdict.None? ==>
                  outcome.baselineStatus == snap.baselineStatusCode && outcome.baselineLength == snap.baselineResponseLength)
            && (!(evaluate && verdict.None?) ==>
                  && outcome.baselineStatus == (if result.statusCode.Some? then result.statusCode else snap.baselineStatusCode)
                  && outcome.baselineLength == (if result.responseLength.Some? && !result.truncated then result.responseLength
                                                else snap.baselineResponseLength))
  {
  }

  /** An edited endpoint is inactive, or due at once when it was switched on or its interval
      changed, or due as it was before; its limit starts again. */
  lemma UpdatedLaw(row: Row, current: Row, record: EndpointRecord, intervalChanged: bool, now: Time, at: Time)
    ensures var after := Updated(row, current, record, intervalChanged, now);
            && after.active == record.active
            && (IsDue(after, at) <==>
                && record.active
                && if !current.active || intervalChanged then now <= at
                   else current.nextRunAt.Some? && current.nextRunAt.value <= at)
            && (IsExpired(after, at) <==> record.active && RunOut(record.deactivateAfterSeconds, now, at))
            && after.state == (if !record.active then Deactivated else if !current.active then Unknown else current.state)
            && after.deactivatedReason ==
               (if !record.active then Some(Manual) else if !current.active then None else current.deactivatedReason)
            && after.notifiedAt == (if record.active && !current.active then None else current.notifiedAt)
            && after.version == row.version + 1
            && SameMemory(after, row)
  {
  }

  /** A row that follows a record alerts on its condition, goes on pinging at its interval,
      and is switched off by a match exactly when the record does not continue on a match. */
  predicate Follows(row: Row, record: EndpointRecord, result: PingResult, now: Time) {
    var outcome := Process(row, result, true);
    var after := Recorded(row, row, result, outcome, false, now);
    && row.screenshotOnMatch == record.screenshotOnMatch
    && row.deactivateAfterSeconds == record.deactivateAfterSeconds
    && (outcome.matched <==>
        Matches(record.notifyCondition, row.baselineStatusCode, row.baselineResponseLength, result) == Some(true))
    && (NotifiesOnce(row, outcome) <==> record.active && outcome.matched && !record.continueOnMatch)
    && (record.active ==> (after.active <==> !outcome.matched || record.continueOnMatch))
    && (record.active && after.active ==>
        after.nextRunAt == Some(result.finishedAt + record.pingIntervalSeconds * SECOND))
  }

  lemma CreatedFollows(record: EndpointRecord, created: Time, result: PingResult, now: Time)
    ensures Follows(Created(record, created), record, result, now)
  {
  }

  lemma UpdatedFollows(row: Row, current: Row, record: EndpointRecord, intervalChanged: bool, updated: Time,
                       result: PingResult, now: Time)
    ensures Follows(Updated(row, current, record, intervalChanged, updated), record, result, now)
  {
  }

  /** A lock ends the endpoint's being due until just after the lease. */
  lemma LockedLaw(row: Row, now: Time, lockFor: Time, at: Time)
    requires IsDue(row, now)
    ensures at <= now + lockFor ==> !IsDue(Locked(row, now, lockFor), at)
    ensures now <= at && now + lockFor < at ==> IsDue(Locked(row, now, lockFor), at)
    ensures Locked(row, now, lockFor).(lockedUntil := row.lockedUntil) == row
  {
  }

  /** The state that the status of a result stands for. */
  ghost predicate Shows(state: State, status: Option<int>) {
    && (state == Offline <==> status == None)
    && (state == Live <==> exists code :: status == Some(code) && 100 <= code <= 399)
    && (state == Warning <==> exists code :: status == Some(code) && (code < 100 || 400 <= code))
  }

  /** What the record of a ping leaves for the user to see. */
  lemma RecordedLaw(row: Row, snap: Row, result: PingResult, outcome: Outcome, manual: bool, now: Time)
    ensures var after := Recorded(row, snap, result, outcome, manual, now);
            var once := outcome.matched && snap.active && snap.notifyOnce;
            && (!once && (snap.active || manual) ==> Shows(after.state, result.statusCode))
            && (once || (!snap.active && !manual) ==> after.state == Deactivated)
            && after.active == (row.active && !once)
            && after.lastCheckedAt == Some(result.finishedAt)
            && after.lastStatusCode == result.statusCode && after.lastResponseLength == result.responseLength
            && after.baselineStatusCode == outcome.baselineStatus && after.baselineResponseLength == outcome.baselineLength
            && after.nextRunAt == (if once || !snap.active then None else outcome.nextRun)
            && after.notifiedAt == (if outcome.matched && snap.active then Some(now) else row.notifiedAt)
            && after.deactivatedReason == (if once then Some(NotifyOnceConditionMatched) else row.deactivatedReason)
            && after.deactivateAt == (if once then None else row.deactivateAt)
            && after.lockedUntil == None && SameSettings(after, row) && after.version == row.version + 1
  {
    var after := Recorded(row, snap, result, outcome, manual, now);
    if result.statusCode.Some? {
      var code := result.statusCode.value;
      assert result.statusCode == Some(code);
    }
  }

  /** A downtime moves the deadline of an active endpoint and nothing else. */
  lemma ExtendedLaw(row: Row, downtime: Time, at: Time)
    ensures IsExpired(Extended(row, downtime), at) <==> IsExpired(row, at - downtime)
    ensures Extended(row, downtime).(deactivateAt := row.deactivateAt) == row
    ensures !row.active ==> Extended(row, downtime) == row
  {
  }
}
