/** The database as the server uses it (internal/db/db.go): one class whose methods
    are the store's methods, each proved against the row and table functions that the
    whole-run modules reason about. `now` stands for now() and time.Now(). */
module Store {
  import opened Common
  import opened Conditions
  import opened Endpoints
  import opened Outbox
  import opened RowLaws
  import Monitor
  import OutboxProgress
  import ScreenshotRuns

  lemma {:induction false} Bound(s: set<Id>) returns (bound: nat)
    ensures forall x :: x in s ==> x < bound
  {
    bound := 0;
    if s != {} {
      var x :| x in s;
      var rest := Bound(s - {x});
      bound := if x < rest then rest else x + 1;
      assert forall y :: y in s ==> y == x || y in s - {x};
    }
  }

  lemma UnusedExists(s: set<Id>)
    ensures exists x: Id :: x !in s
  {
    var bound := Bound(s);
    assert bound !in s;
  }

  /** ORDER BY key ASC LIMIT limit: the earliest candidates, in order. */
  method Earliest(candidates: set<Id>, key: map<Id, Time>, limit: nat) returns (picked: seq<Id>)
    requires candidates <= key.Keys
    ensures Distinct(picked) && |picked| <= limit
    ensures forall id :: id in picked ==> id in candidates
    ensures forall i, j :: 0 <= i < j < |picked| ==> key[picked[i]] <= key[picked[j]]
    ensures forall id :: id in candidates && id !in picked ==>
              |picked| == limit && forall other :: other in picked ==> key[other] <= key[id]
  {
    picked := [];
    var rest := candidates;
    while |picked| < limit && rest != {}
      invariant Distinct(picked) && |picked| <= limit && rest <= candidates
      invariant forall id :: id in candidates <==> id in picked || id in rest
      invariant forall id :: id in picked ==> id !in rest
      invariant forall i, j :: 0 <= i < j < |picked| ==> key[picked[i]] <= key[picked[j]]
      invariant forall id, other :: id in rest && other in picked ==> key[other] <= key[id]
      decreases rest
    {
      LeastExists(rest, id => if id in key then key[id] else 0);
      var next :| next in rest && forall id :: id in rest ==> key[next] <= key[id];
      picked, rest := picked + [next], rest - {next};
    }
  }

  /** The inserts of RecordPingResult for an endpoint that exists, under identifiers not in use before. */
  predicate Inserted(before: Tables, after: Tables, ids: FreshIds, endpoint: Id, snap: Row, outcome: Outcome, now: Time) {
    && ids.check !in before.checks && ids.event !in before.events && ids.attempt !in before.attempts
    && after == WithRecord(before, endpoint, ids, outcome.matched, Notifies(snap, outcome), snap.screenshotOnMatch, now)
  }

  // ---------------------------------------------------------------- what the tables always satisfy

  ghost predicate RowsOk(rows: map<Id, Row>) {
    forall id :: id in rows ==> Monitor.RowOk(rows[id])
  }

  /** The foreign keys to endpoints. */
  ghost predicate Referenced(t: Tables, rows: map<Id, Row>) {
    && (forall id :: id in t.checks ==> t.checks[id].endpoint in rows)
    && (forall id :: id in t.events ==> t.events[id].endpoint in rows)
    && (forall id :: id in t.attempts ==> t.attempts[id].endpoint in rows)
  }

  ghost predicate AllLinked(t: Tables) {
    forall id :: id in t.attempts ==> ScreenshotRuns.Linked(t, t.attempts[id])
  }

  ghost predicate TablesOk(t: Tables, rows: map<Id, Row>) {
    Referenced(t, rows) && AllLinked(t) && OutboxProgress.PendingUntried(t.events)
  }

  /** New rows under new ids break no link, and the new attempt is linked. */
  lemma InsertKeepsTables(before: Tables, after: Tables, rows: map<Id, Row>, ids: FreshIds, endpoint: Id, snap: Row,
                          outcome: Outcome, now: Time)
    requires TablesOk(before, rows) && endpoint in rows && Inserted(before, after, ids, endpoint, snap, outcome, now)
    ensures TablesOk(after, rows)
  {
  }

  /** The cascade takes an attempt together with the check and the event it names. */
  lemma CascadeKeepsTables(t: Tables, rows: map<Id, Row>, endpoint: Id)
    requires TablesOk(t, rows)
    ensures TablesOk(WithoutEndpoint(t, endpoint), rows - {endpoint})
  {
    var rest := WithoutEndpoint(t, endpoint);
    forall id | id in rest.attempts ensures ScreenshotRuns.Linked(rest, rest.attempts[id]) {
      assert ScreenshotRuns.Linked(t, t.attempts[id]);
    }
  }

  lemma NothingToCascade(t: Tables, rows: map<Id, Row>, endpoint: Id)
    requires Referenced(t, rows) && endpoint !in rows
    ensures WithoutEndpoint(t, endpoint) == t
  {
  }

  lemma MarkKeepsTables(t: Tables, rows: map<Id, Row>, id: Id, delivered: bool, now: Time)
    requires TablesOk(t, rows)
    ensures TablesOk(t.(events := MarkEvent(t.events, id, delivered, now)), rows)
  {
    var marked := t.(events := MarkEvent(t.events, id, delivered, now));
    forall a | a in marked.attempts ensures ScreenshotRuns.Linked(marked, marked.attempts[a]) {
      assert ScreenshotRuns.Linked(t, t.attempts[a]);
    }
  }

  lemma StatusKeepsTables(t: Tables, rows: map<Id, Row>, id: Id, status: AttemptStatus)
    requires TablesOk(t, rows)
    ensures TablesOk(t.(attempts := MarkAttempt(t.attempts, id, status)), rows)
  {
    var marked := t.(attempts := MarkAttempt(t.attempts, id, status));
    forall a | a in marked.attempts ensures ScreenshotRuns.Linked(marked, marked.attempts[a]) {
      assert ScreenshotRuns.Linked(t, t.attempts[a]);
    }
  }

  lemma LockKeepsRows(rows: map<Id, Row>, picked: set<Id>, now: Time, lockFor: Time)
    requires RowsOk(rows) && forall id :: id in picked ==> id in rows && IsDue(rows[id], now)
    ensures RowsOk(LockedRows(rows, picked, now, lockFor))
  {
  }

  lemma SameKeysKeepTables(t: Tables, rows: map<Id, Row>, rows': map<Id, Row>)
    requires TablesOk(t, rows) && rows.Keys <= rows'.Keys
    ensures TablesOk(t, rows')
  {
    assert forall id :: id in rows ==> id in rows';
  }

  class Database {
    var rows: map<Id, Row>
    var lastSeen: Option<Time>
    var checks: map<Id, Check>
    var events: map<Id, Event>
    var attempts: map<Id, Attempt>

    /** Row invariant of every endpoint, links and foreign keys of every outbox row, no
        failed attempt on a pending event. */
    ghost predicate Valid()
      reads this
    {
      RowsOk(rows) && TablesOk(Outboxes(), rows)
    }

    constructor ()
      ensures Valid()
      ensures rows == map[] && lastSeen == None && Outboxes() == Tables(map[], map[], map[])
    {
      rows, lastSeen, checks, events, attempts := map[], None, map[], map[], map[];
    }

    function Outboxes(): Tables
      reads this
    {
      Tables(checks, events, attempts)
    }

    // ------------------------------------------------------------ endpoints

    /** The new endpoint is due at once and expires its limit later if it is active, and
        neither otherwise; pings of it follow the record. */
    method CreateEndpoint(record: EndpointRecord, now: Time) returns (id: Id)
      requires Valid()
      modifies this`rows
      ensures Valid()
      ensures id !in old(rows) && rows == old(rows)[id := Created(record, now)]
      ensures forall at: Time :: IsDue(rows[id], at) <==> record.active && now <= at
      ensures forall at: Time :: IsExpired(rows[id], at) <==> record.active && RunOut(record.deactivateAfterSeconds, now, at)
      ensures forall result: PingResult, at: Time :: Follows(rows[id], record, result, at)
    {
      UnusedExists(rows.Keys);
      id :| id !in rows.Keys;
      var nextRun: Option<Time>, deactivateAt: Option<Time> := None, None;
      if record.active {
        nextRun := Some(now);
        deactivateAt := DeactivateDeadline(now, record.deactivateAfterSeconds);
      }
      var state := Unknown;
      if !record.active {
        state := Deactivated;
      }
      rows := rows[id := Row(record.pingIntervalSeconds, record.deactivateAfterSeconds, record.notifyCondition,
                             !record.continueOnMatch, record.screenshotOnMatch, record.active, state,
                             nextRun, deactivateAt, None, None, None, None, None, None, None, None, 1)];
      forall result: PingResult, at: Time ensures Follows(rows[id], record, result, at) {
        CreatedFollows(record, now, result, at);
      }
      SameKeysKeepTables(Outboxes(), old(rows), rows);
    }

    /** Afterwards no row has expired by `now`; those that had are off, the others as they were. */
    method DeactivateExpiredEndpoints(now: Time) returns (affected: nat)
      requires Valid()
      modifies this`rows
      ensures Valid()
      ensures rows == SweptRows(old(rows), now)
      ensures affected == |set id | id in old(rows) && IsExpired(old(rows)[id], now)|
      ensures forall id, at: Time :: id in rows && at <= now ==> !IsExpired(rows[id], at)
      ensures forall id :: id in rows && !IsExpired(old(rows)[id], now) ==> rows[id] == old(rows)[id]
      ensures forall id :: id in rows && IsExpired(old(rows)[id], now) ==>
                !rows[id].active && rows[id].deactivatedReason == Some(TimeLimitExpired)
    {
      affected := |set id | id in rows && IsExpired(rows[id], now)|;
      rows := SweptRows(rows, now);
      SameKeysKeepTables(Outboxes(), old(rows), rows);
    }

    method GetEndpoint(id: Id, now: Time) returns (endpoint: Option<Row>)
      requires Valid()
      modifies this`rows
      ensures Valid()
      ensures rows == SweptRows(old(rows), now)
      ensures endpoint == if id in rows then Some(rows[id]) else None
    {
      var _ := DeactivateExpiredEndpoints(now);
      endpoint := if id in rows then Some(rows[id]) else None;
    }

    /** The UPDATE of UpdateEndpoint, with the row `current` that was read before. */
    method WriteEndpoint(id: Id, current: Row, record: EndpointRecord, intervalChanged: bool, now: Time)
      returns (found: bool)
      requires Valid()
      modifies this`rows
      ensures Monitor.RowOk(current) ==> Valid()
      ensures found == (id in old(rows))
      ensures rows == if found
                      then old(rows)[id := Updated(old(rows)[id], current, record, intervalChanged, now)]
                      else old(rows)
      ensures found ==> forall at: Time ::
                (IsExpired(rows[id], at) <==> record.active && RunOut(record.deactivateAfterSeconds, now, at))
      ensures found ==> forall result: PingResult, at: Time :: Follows(rows[id], record, result, at)
    {
      var nextRun: Option<Time>, deactivateAt: Option<Time> := None, None;
      if record.active {
        if !current.active || intervalChanged {
          nextRun := Some(now);
        } else {
          nextRun := current.nextRunAt;
        }
        deactivateAt := DeactivateDeadline(now, record.deactivateAfterSeconds);
      }
      var state, reason, notifiedAt := current.state, current.deactivatedReason, current.notifiedAt;
      if record.active && !current.active {
        state, reason, notifiedAt := Unknown, None, None;
      }
      if !record.active {
        state, reason := Deactivated, Some(Manual);
      }
      found := id in rows;
      if found {
        rows := rows[id := rows[id].(
          pingIntervalSeconds := record.pingIntervalSeconds,
          deactivateAfterSeconds := record.deactivateAfterSeconds,
          notifyCondition := record.notifyCondition,
          notifyOnce := !record.continueOnMatch,
          screenshotOnMatch := record.screenshotOnMatch,
          active := record.active, state := state, nextRunAt := nextRun, deactivateAt := deactivateAt,
          deactivatedReason := reason, notifiedAt := notifiedAt, lockedUntil := None,
          version := rows[id].version + 1)];
        forall result: PingResult, at: Time ensures Follows(rows[id], record, result, at) {
          UpdatedFollows(old(rows)[id], current, record, intervalChanged, now, result, at);
        }
        SameKeysKeepTables(Outboxes(), old(rows), rows);
      }
    }

    method UpdateEndpoint(id: Id, record: EndpointRecord, intervalChanged: bool, now: Time) returns (found: bool)
      requires Valid()
      modifies this`rows
      ensures Valid()
      ensures found == (id in old(rows))
      ensures var swept := SweptRows(old(rows), now);
              rows == if found
                      then swept[id := Updated(swept[id], swept[id], record, intervalChanged, now)]
                      else swept
      ensures found ==> forall at: Time :: now <= at ==>
                (IsDue(rows[id], at) <==>
                 && record.active
                 && (!old(rows)[id].active || IsExpired(old(rows)[id], now) || intervalChanged
                     || (old(rows)[id].nextRunAt.Some? && old(rows)[id].nextRunAt.value <= at)))
      ensures found ==> forall at: Time ::
                (IsExpired(rows[id], at) <==> record.active && RunOut(record.deactivateAfterSeconds, now, at))
      ensures found ==> forall result: PingResult, at: Time :: Follows(rows[id], record, result, at)
    {
      var current := GetEndpoint(id, now);
      if current.None? {
        return false;
      }
      found := WriteEndpoint(id, current.value, record, intervalChanged, now);
    }

    /** The endpoint is due at once, and expires exactly its time limit later, if it has one. */
    method ActivateEndpoint(id: Id, now: Time) returns (found: bool)
      requires Valid()
      modifies this`rows
      ensures Valid()
      ensures found == (id in old(rows))
      ensures rows == if found then old(rows)[id := Activated(old(rows)[id], now)] else old(rows)
      ensures found ==>
                && IsDue(rows[id], now)
                && forall at: Time :: IsExpired(rows[id], at) <==>
                     var limit := old(rows)[id].deactivateAfterSeconds; limit.Some? && now + limit.value * SECOND <= at
      ensures rows.Keys == old(rows).Keys && forall other :: other in rows && other != id ==> rows[other] == old(rows)[other]
    {
      found := id in rows;
      if found {
        rows := rows[id := Activated(rows[id], now)];
        SameKeysKeepTables(Outboxes(), old(rows), rows);
      }
    }

    /** The endpoint is never due and never expires. Activating it again gives the row
        that activating it right away would have given, up to the version. */
    method DeactivateEndpoint(id: Id) returns (found: bool)
      requires Valid()
      modifies this`rows
      ensures Valid()
      ensures found == (id in old(rows))
      ensures rows == if found then old(rows)[id := TurnedOff(old(rows)[id], Manual)] else old(rows)
      ensures found ==> forall at: Time ::
                && !IsDue(rows[id], at) && !IsExpired(rows[id], at)
                && Activated(rows[id], at).(version := 0) == Activated(old(rows)[id], at).(version := 0)
      ensures rows.Keys == old(rows).Keys && forall other :: other in rows && other != id ==> rows[other] == old(rows)[other]
    {
      found := id in rows;
      if found {
        rows := rows[id := TurnedOff(rows[id], Manual)];
        SameKeysKeepTables(Outboxes(), old(rows), rows);
      }
    }

    /** No row of any table names the endpoint any more; every row that did not is as it
        was, and no remaining row lost what it refers to. */
    method DeleteEndpoint(id: Id) returns (found: bool)
      requires Valid()
      modifies this
      ensures Valid()
      ensures id !in rows && forall other :: other in old(rows) && other != id ==> other in rows && rows[other] == old(rows)[other]
      ensures forall c :: c in checks <==> c in old(checks) && old(checks)[c].endpoint != id
      ensures forall e :: e in events <==> e in old(events) && old(events)[e].endpoint != id
      ensures forall a :: a in attempts <==> a in old(attempts) && old(attempts)[a].endpoint != id
      ensures forall c :: c in checks ==> checks[c] == old(checks)[c]
      ensures forall e :: e in events ==> events[e] == old(events)[e]
      ensures forall a :: a in attempts ==> attempts[a] == old(attempts)[a]
      ensures found == (id in old(rows)) && lastSeen == old(lastSeen)
      ensures rows == old(rows) - {id}
      ensures Outboxes() == if found then WithoutEndpoint(old(Outboxes()), id) else old(Outboxes())
    {
      found := id in rows;
      CascadeKeepsTables(Outboxes(), rows, id);
      rows := rows - {id};
      if found {
        var rest := WithoutEndpoint(Outboxes(), id);
        checks, events, attempts := rest.checks, rest.events, rest.attempts;
        assert Outboxes() == rest;
      } else {
        NothingToCascade(Outboxes(), old(rows), id);
      }
    }

    /** The UPDATE of each selected row, inside the locking transaction. */
    method LockRows(ids: seq<Id>, now: Time, lockFor: Time)
      requires Distinct(ids) && forall id :: id in ids ==> id in rows
      modifies this`rows
      ensures rows == LockedRows(old(rows), Elements(ids), now, lockFor)
    {
      for i := 0 to |ids|
        invariant rows == LockedRows(old(rows), Elements(ids[..i]), now, lockFor)
      {
        assert ids[..i + 1] == ids[..i] + [ids[i]];
        assert ids[i] !in ids[..i];
        rows := rows[ids[i] := Locked(rows[ids[i]], now, lockFor)];
      }
      assert ids[..|ids|] == ids;
    }

    /** The locking SELECT: the earliest due rows, and what they look like. */
    method SelectDue(limit: nat, now: Time) returns (picked: seq<Id>, snapshots: map<Id, Row>)
      ensures IsDueBatch(rows, Elements(picked), limit, now) && Distinct(picked)
      ensures forall id :: id in picked ==> id in rows && IsDue(rows[id], now)
      ensures forall i, j :: 0 <= i < j < |picked| ==> rows[picked[i]].nextRunAt.value <= rows[picked[j]].nextRunAt.value
      ensures snapshots == (map id | id in picked :: rows[id])
    {
      var due := set id | id in rows && IsDue(rows[id], now);
      var nextRun := map id | id in due :: rows[id].nextRunAt.value;
      picked := Earliest(due, nextRun, limit);
      snapshots := map id | id in picked :: rows[id];
      DistinctSize(picked);
      assert forall id :: id in picked ==> nextRun[id] == rows[id].nextRunAt.value;
    }

    /** Sweeps, selects the earliest due rows, then locks them. The snapshots returned
        were taken before the locks were written. */
    method LockDueEndpoints(limit: nat, lockFor: Time, now: Time) returns (locked: seq<Id>, snapshots: map<Id, Row>)
      requires Valid()
      modifies this`rows
      ensures Valid()
      ensures forall id :: id in snapshots ==> Monitor.RowOk(snapshots[id]) && snapshots[id].active
      ensures var swept := SweptRows(old(rows), now);
              && IsDueBatch(swept, Elements(locked), limit, now) && Distinct(locked)
              && (forall id :: id in locked ==> id in swept && IsDue(swept[id], now))
              && (forall i, j :: 0 <= i < j < |locked| ==>
                    swept[locked[i]].nextRunAt.value <= swept[locked[j]].nextRunAt.value)
              && snapshots == (map id | id in locked :: swept[id])
              && rows == LockedRows(swept, Elements(locked), now, lockFor)
      ensures forall id, at: Time :: id in locked && now <= at ==> (IsDue(rows[id], at) <==> now + lockFor < at)
    {
      var _ := DeactivateExpiredEndpoints(now);
      locked, snapshots := SelectDue(limit, now);
      ghost var swept := rows;
      LockRows(locked, now, lockFor);
      LockKeepsRows(swept, Elements(locked), now, lockFor);
      forall id, at: Time | id in locked && now <= at ensures IsDue(rows[id], at) <==> now + lockFor < at {
        LockedLaw(swept[id], now, lockFor, at);
      }
      SameKeysKeepTables(Outboxes(), swept, rows);
    }

    /** Every deadline moves by the time since the last heartbeat: an endpoint has expired
        exactly if it had that long before. */
    method ResumeAfterDowntime(now: Time) returns (downtime: Time, extended: nat)
      requires Valid()
      modifies this`rows, this`lastSeen
      ensures Valid()
      ensures lastSeen == Some(now)
      ensures downtime == TimeSince(old(lastSeen), now)
      ensures rows == if downtime > 0 then ExtendedRows(old(rows), downtime) else old(rows)
      ensures extended == if downtime > 0
                          then |set id | id in old(rows) && old(rows)[id].active && old(rows)[id].deactivateAt.Some?|
                          else 0
      ensures downtime >= 0 && rows.Keys == old(rows).Keys
      ensures old(lastSeen).Some? && old(lastSeen).value <= now ==> downtime == now - old(lastSeen).value
      ensures old(lastSeen).None? ==> downtime == 0
      ensures forall id, at: Time :: id in rows ==> (IsExpired(rows[id], at) <==> IsExpired(old(rows)[id], at - downtime))
    {
      downtime, extended := 0, 0;
      if lastSeen.None? {
        lastSeen := Some(now);
        return;
      }
      if now > lastSeen.value {
        downtime := now - lastSeen.value;
        extended := |set id | id in rows && rows[id].active && rows[id].deactivateAt.Some?|;
        rows := ExtendedRows(rows, downtime);
        SameKeysKeepTables(Outboxes(), old(rows), rows);
      }
      lastSeen := Some(now);
    }

    /** A restart at any later time finds exactly the time since `at` to make up for. */
    method MarkRuntimeSeen(at: Time)
      requires Valid()
      modifies this`lastSeen
      ensures Valid()
      ensures lastSeen == Some(at)
      ensures forall now: Time :: at <= now ==> TimeSince(lastSeen, now) == now - at
    {
      lastSeen := Some(at);
    }

    /** gen_random_uuid(), once for each table RecordPingResult inserts into. */
    method DrawIds() returns (ids: FreshIds)
      ensures ids.check !in checks && ids.event !in events && ids.attempt !in attempts
    {
      UnusedExists(checks.Keys);
      UnusedExists(events.Keys);
      UnusedExists(attempts.Keys);
      var check :| check !in checks.Keys;
      var event :| event !in events.Keys;
      var attempt :| attempt !in attempts.Keys;
      ids := FreshIds(check, event, attempt);
    }

    /** The inserts of RecordPingResult. */
    method InsertResult(id: Id, snap: Row, outcome: Outcome, now: Time) returns (ids: FreshIds)
      modifies this`checks, this`events, this`attempts
      ensures Inserted(old(Outboxes()), Outboxes(), ids, id, snap, outcome, now)
      ensures ids.check in checks && checks[ids.check].endpoint == id && checks[ids.check].matched == outcome.matched
      ensures (ids.event in events <==> outcome.matched && snap.active)
      ensures ids.event in events ==>
                events[ids.event] == Event(id, Pending, 0, now, now) && checks[ids.check].event == Some(ids.event)
      ensures (ids.attempt in attempts <==> outcome.matched && snap.active && snap.screenshotOnMatch)
      ensures ids.attempt in attempts ==> attempts[ids.attempt] == Attempt(id, ids.check, ids.event, Waiting, now)
    {
      ids := DrawIds();
      checks := checks[ids.check := Check(id, outcome.matched, None)];
      if outcome.matched && snap.active {
        events := events[ids.event := Event(id, Pending, 0, now, now)];
        checks := checks[ids.check := checks[ids.check].(event := Some(ids.event))];
        if snap.screenshotOnMatch {
          attempts := attempts[ids.attempt := Attempt(id, ids.check, ids.event, Waiting, now)];
        }
      }
    }

    /** The endpoint UPDATE of RecordPingResult. */
    method UpdateResult(id: Id, snap: Row, result: PingResult, outcome: Outcome, manual: bool, now: Time)
      requires id in rows
      modifies this`rows
      ensures rows == old(rows)[id := Recorded(old(rows)[id], snap, result, outcome, manual, now)]
      ensures var once := outcome.matched && snap.active && snap.notifyOnce;
              && (!once && (snap.active || manual) ==> Shows(rows[id].state, result.statusCode))
              && (once || (!snap.active && !manual) ==> rows[id].state == Deactivated)
              && rows[id].active == (old(rows)[id].active && !once)
    {
      var state := StateForResult(snap.active || manual, result);
      var row := rows[id].(
        lastCheckedAt := Some(result.finishedAt), lastStatusCode := result.statusCode,
        lastResponseLength := result.responseLength, baselineStatusCode := outcome.baselineStatus,
        baselineResponseLength := outcome.baselineLength, lockedUntil := None, version := rows[id].version + 1);
      if outcome.matched && snap.active && snap.notifyOnce {
        row := row.(active := false, state := Deactivated, nextRunAt := None, deactivateAt := None,
                    notifiedAt := Some(now), deactivatedReason := Some(NotifyOnceConditionMatched));
      } else {
        var nextRun := outcome.nextRun;
        if !snap.active {
          nextRun := None;
          if !manual {
            state := Deactivated;
          }
        }
        row := row.(state := state, nextRunAt := nextRun);
        if outcome.matched && snap.active {
          row := row.(notifiedAt := Some(now));
        }
      }
      RecordedLaw(rows[id], snap, result, outcome, manual, now);
      rows := rows[id := row];
    }

    /** One transaction over four tables. For a deleted endpoint the first insert fails
        its foreign key and nothing changes. */
    method RecordPingResult(id: Id, snap: Row, result: PingResult, outcome: Outcome, manual: bool, now: Time)
      returns (ids: Option<FreshIds>)
      requires Valid()
      modifies this`rows, this`checks, this`events, this`attempts
      ensures Monitor.RowOk(snap) && (snap.active || manual) ==> Valid()
      ensures ids.Some? <==> id in old(rows)
      ensures ids.None? ==> rows == old(rows) && Outboxes() == old(Outboxes())
      ensures ids.Some? ==>
                && rows == old(rows)[id := Recorded(old(rows)[id], snap, result, outcome, manual, now)]
                && Inserted(old(Outboxes()), Outboxes(), ids.value, id, snap, outcome, now)
      ensures ids.Some? ==>
                var once := outcome.matched && snap.active && snap.notifyOnce;
                && (!once && (snap.active || manual) ==> Shows(rows[id].state, result.statusCode))
                && (once || (!snap.active && !manual) ==> rows[id].state == Deactivated)
                && rows[id].active == (old(rows)[id].active && !once)
    {
      if id !in rows {
        return None;
      }
      ghost var before := Outboxes();
      var drawn := InsertResult(id, snap, outcome, now);
      InsertKeepsTables(before, Outboxes(), rows, drawn, id, snap, outcome, now);
      UpdateResult(id, snap, result, outcome, manual, now);
      SameKeysKeepTables(Outboxes(), old(rows), rows);
      ids := Some(drawn);
    }

    // ------------------------------------------------------------ notifications

    method DueNotificationEvents(limit: nat, now: Time) returns (picked: seq<Id>)
      ensures IsEventBatch(events, picked, limit, now)
    {
      var due := set id | id in events && IsDueEvent(events[id], now);
      var created := map id | id in due :: events[id].createdAt;
      picked := Earliest(due, created, limit);
    }

    /** The event is never due again, and no other event changes. */
    method MarkNotificationSent(id: Id, now: Time)
      requires Valid()
      modifies this`events
      ensures Valid()
      ensures events == MarkEvent(old(events), id, true, now)
      ensures events.Keys == old(events).Keys
      ensures forall other :: other in events && other != id ==> events[other] == old(events)[other]
      ensures id in events ==> forall at: Time :: !IsDueEvent(events[id], at)
    {
      MarkKeepsTables(Outboxes(), rows, id, true, now);
      if id in events {
        events := events[id := MarkedSent(events[id], now)];
      }
    }

    /** The event is due again exactly when it has tries left and its backoff is over; no other event changes. */
    method MarkNotificationFailed(id: Id, now: Time)
      requires Valid()
      modifies this`events
      ensures Valid()
      ensures events == MarkEvent(old(events), id, false, now)
      ensures events.Keys == old(events).Keys
      ensures forall other :: other in events && other != id ==> events[other] == old(events)[other]
      ensures id in events ==>
                var failures := old(events)[id].attempts + 1;
                forall at: Time :: IsDueEvent(events[id], at) <==>
                  failures < MAX_ATTEMPTS && now + BackoffSeconds(failures) * SECOND < at
    {
      MarkKeepsTables(Outboxes(), rows, id, false, now);
      if id in events {
        events := events[id := MarkedFailed(events[id], now)];
      }
    }

    // ------------------------------------------------------------ screenshots

    method DueScreenshotAttempts(limit: int) returns (picked: seq<Id>)
      ensures IsAttemptBatch(Outboxes(), picked, if limit <= 0 then 1 else limit)
    {
      var atMost := if limit <= 0 then 1 else limit;
      var due := set id | id in attempts && IsDueAttempt(Outboxes(), id);
      var created := map id | id in due :: attempts[id].createdAt;
      picked := Earliest(due, created, atMost);
    }

    /** Compare and set: only a row that is still pending is claimed. */
    method MarkScreenshotCapturing(id: Id) returns (claimed: bool)
      requires Valid()
      modifies this`attempts
      ensures Valid()
      ensures claimed <==> id in old(attempts) && old(attempts)[id].status == Waiting
      ensures attempts == if claimed then MarkAttempt(old(attempts), id, Capturing) else old(attempts)
    {
      StatusKeepsTables(Outboxes(), rows, id, Capturing);
      claimed := id in attempts && attempts[id].status == Waiting;
      if claimed {
        attempts := attempts[id := attempts[id].(status := Capturing)];
      }
    }

    /** With a final status the attempt is not due again, and it can be retried exactly
        if it failed; no other attempt changes. */
    method MarkScreenshot(id: Id, status: AttemptStatus)
      requires Valid()
      modifies this`attempts
      ensures Valid()
      ensures attempts == MarkAttempt(old(attempts), id, status)
      ensures attempts.Keys == old(attempts).Keys
      ensures id in attempts ==> attempts[id] == old(attempts)[id].(status := status)
      ensures status != Waiting ==> !IsDueAttempt(Outboxes(), id)
      ensures id in attempts && attempts[id].status == CaptureFailed <==> id in old(attempts) && status == CaptureFailed
      ensures forall other :: other in attempts && other != id ==> attempts[other] == old(attempts)[other]
    {
      StatusKeepsTables(Outboxes(), rows, id, status);
      if id in attempts {
        attempts := attempts[id := attempts[id].(status := status)];
      }
    }

    /** RetryScreenshotAttempt with nothing between its read and its write. */
    method RetryScreenshotAttempt(id: Id) returns (ok: bool)
      requires Valid()
      modifies this`attempts
      ensures Valid()
      ensures ok <==> id in old(attempts) && old(attempts)[id].status == CaptureFailed
      ensures attempts == if ok then MarkAttempt(old(attempts), id, Waiting) else old(attempts)
      ensures ok ==> attempts[id].event in events && (IsDueAttempt(Outboxes(), id) <==> events[attempts[id].event].status == Sent)
    {
      StatusKeepsTables(Outboxes(), rows, id, Waiting);
      if id !in attempts || attempts[id].status != CaptureFailed {
        return false;
      }
      attempts := attempts[id := attempts[id].(status := Waiting)];
      ok := true;
    }
  }
}
