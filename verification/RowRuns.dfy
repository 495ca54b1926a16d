/** What holds of a row between two writes of it, over the runs of the monitor: the state
    of the latest ping stays on show, and a locked endpoint is not picked before its lease
    has ended. */
module RowRuns {
  import opened Common
  import opened Conditions
  import opened Endpoints
  import opened Monitor
  import opened RowLaws

  /** The step edits, switches or deletes the endpoint, or records a ping of it. */
  predicate Writes(w: World, s: Step, id: Id)
    requires match s
             case WriteEdit(ticket, _, _, _) => ticket in w.edits
             case RecordManual(ticket, _, _) => ticket in w.manual
             case _ => true
  {
    match s
    case Create(at, _, _) => at == id
    case Delete(at, _) => at == id
    case WriteEdit(ticket, _, _, _) => w.edits[ticket].id == id
    case Activate(at, _) => at == id
    case Deactivate(at, _) => at == id
    case RecordScheduled(at, _, _) => at == id
    case RecordManual(ticket, _, _) => w.manual[ticket].id == id
    case _ => false
  }

  ghost predicate Unwritten(w: World, steps: seq<Step>, id: Id)
    requires IsRun(w, steps)
    decreases |steps|
  {
    steps == [] || (!Writes(w, steps[0], id) && Unwritten(Next(w, steps[0]), steps[1..], id))
  }

  lemma PingKeepsOthers(w: World, s: Step, id: Id)
    requires Enabled(w, s) && IsPing(s) && !Writes(w, s, id) && id in w.rows
    ensures id in Effect(w, s).rows && Effect(w, s).rows[id] == w.rows[id]
  {
  }

  /** All that can happen to a row that is not written: it is swept, locked or extended. */
  lemma UnwrittenRow(w: World, s: Step, id: Id)
    requires Enabled(w, s) && !Writes(w, s, id) && id in w.rows
    ensures var rows := Next(w, s).rows;
            && id in rows
            && rows[id] == match s
                           case Expire(now) => Swept(w.rows[id], now)
                           case LockDue(picked, _, lockFor, now) =>
                             if id in picked then Locked(w.rows[id], now, lockFor) else w.rows[id]
                           case Resume(now) =>
                             if Downtime(w, now) > 0 then Extended(w.rows[id], Downtime(w, now)) else w.rows[id]
                           case _ => w.rows[id]
  {
    if IsPing(s) {
      PingKeepsOthers(w, s, id);
    }
  }

  // ---------------------------------------------------------------- the state on show

  /** The state stays until the row is written again, or a sweep switches the endpoint off. */
  lemma {:induction false} StateLasts(w: World, steps: seq<Step>, id: Id)
    requires IsRun(w, steps) && Unwritten(w, steps, id) && id in w.rows
    ensures id in Final(w, steps).rows
    ensures var row := Final(w, steps).rows[id];
            || (row.active == w.rows[id].active && row.state == w.rows[id].state
                && row.deactivatedReason == w.rows[id].deactivatedReason)
            || (w.rows[id].active && !row.active && row.state == Deactivated && row.deactivatedReason == Some(TimeLimitExpired))
    decreases |steps|
  {
    if steps != [] {
      UnwrittenRow(w, steps[0], id);
      hide Enabled, Effect, Next;
      StateLasts(Next(w, steps[0]), steps[1..], id);
    }
  }

  /** The ping that a step records, as snapshot and outcome. */
  predicate Records(w: World, s: Step, id: Id, snap: Row, result: PingResult, manual: bool) {
    match s
    case RecordScheduled(at, r, _) => at == id && r == result && !manual && at in w.batch && snap == w.batch[at]
    case RecordManual(ticket, r, _) =>
      ticket in w.manual && w.manual[ticket] == InFlight(id, snap) && r == result && manual
    case _ => false
  }

  lemma RecordWrites(w: World, s: Step, id: Id, snap: Row, result: PingResult, manual: bool)
    requires Enabled(w, s) && Records(w, s, id, snap, result, manual) && id in w.rows
    ensures id in Next(w, s).rows
    ensures Next(w, s).rows[id] == Recorded(w.rows[id], snap, result, Process(snap, result, !manual || snap.active), manual, s.now)
  {
  }

  /** From the record of a ping until the row is written again, whatever else happens: the
      endpoint shows the state that the status of that ping stands for. Only a notify-once
      match, or a sweep at the time limit, shows it deactivated instead. */
  lemma StateShown(w: World, s: Step, after: seq<Step>, id: Id, snap: Row, result: PingResult, manual: bool)
    requires Enabled(w, s) && Records(w, s, id, snap, result, manual) && id in w.rows && (snap.active || manual)
    requires IsRun(Next(w, s), after) && Unwritten(Next(w, s), after, id)
    ensures id in Final(Next(w, s), after).rows
    ensures var row := Final(Next(w, s), after).rows[id];
            var once := NotifiesOnce(snap, Process(snap, result, !manual || snap.active));
            || (!once && Shows(row.state, result.statusCode))
            || (once && row.state == Deactivated && !row.active)
            || (row.state == Deactivated && !row.active && row.deactivatedReason == Some(TimeLimitExpired))
  {
    RecordWrites(w, s, id, snap, result, manual);
    RecordedLaw(w.rows[id], snap, result, Process(snap, result, !manual || snap.active), manual, s.now);
    hide Enabled, Effect, Next, Recorded, Process, Shows, Matches;
    StateLasts(Next(w, s), after, id);
  }

  // ---------------------------------------------------------------- leases

  predicate Picks(s: Step, id: Id) {
    s.LockDue? && id in s.picked
  }

  /** The endpoint is locked until `lease`, or off. */
  predicate Leased(w: World, id: Id, lease: Time) {
    id in w.rows ==> !w.rows[id].active || w.rows[id].lockedUntil == Some(lease)
  }

  /** The endpoint is not written before a round picks it again. */
  ghost predicate UnwrittenUntilPicked(w: World, steps: seq<Step>, id: Id)
    requires IsRun(w, steps)
    decreases |steps|
  {
    steps == [] || Picks(steps[0], id) ||
    (!Writes(w, steps[0], id) && UnwrittenUntilPicked(Next(w, steps[0]), steps[1..], id))
  }

  /** The first round to pick the endpoint, if there is one, comes after `lease`. */
  predicate PickedAfter(steps: seq<Step>, id: Id, lease: Time) {
    steps == [] || if Picks(steps[0], id) then lease < steps[0].now else PickedAfter(steps[1..], id, lease)
  }

  lemma StepKeepsLease(w: World, s: Step, id: Id, lease: Time)
    requires Enabled(w, s) && Leased(w, id, lease)
    ensures Picks(s, id) ==> lease < s.now
    ensures !Picks(s, id) && !Writes(w, s, id) ==> Leased(Next(w, s), id, lease)
  {
    if Picks(s, id) {
      assert IsDue(w.rows[id], s.now);
    } else if !Writes(w, s, id) {
      if id in w.rows {
        UnwrittenRow(w, s, id);
      } else {
        StaysAway(w, s, id);
      }
    }
  }

  lemma StaysAway(w: World, s: Step, id: Id)
    requires Enabled(w, s) && !Writes(w, s, id) && id !in w.rows
    ensures id !in Next(w, s).rows
  {
  }

  lemma {:induction false} LeaseHolds(w: World, steps: seq<Step>, id: Id, lease: Time)
    requires IsRun(w, steps) && Leased(w, id, lease) && UnwrittenUntilPicked(w, steps, id)
    ensures PickedAfter(steps, id, lease)
    decreases |steps|
  {
    if steps != [] {
      StepKeepsLease(w, steps[0], id, lease);
      hide Enabled, Effect, Next, Leased;
      if !Picks(steps[0], id) {
        LeaseHolds(Next(w, steps[0]), steps[1..], id, lease);
      }
    }
  }

  /** A round that picks an endpoint keeps the following rounds off it until its lease has
      ended, whatever becomes of the ping, unless the endpoint is written before. */
  lemma PickedOncePerLease(w: World, lock: Step, after: seq<Step>, id: Id)
    requires Enabled(w, lock) && Picks(lock, id) && id in w.rows
    requires IsRun(Next(w, lock), after) && UnwrittenUntilPicked(Next(w, lock), after, id)
    ensures PickedAfter(after, id, lock.now + lock.lockFor)
  {
    UnwrittenRow(w, lock, id);
    hide Enabled, Effect, Next;
    LeaseHolds(Next(w, lock), after, id, lock.now + lock.lockFor);
  }
}
