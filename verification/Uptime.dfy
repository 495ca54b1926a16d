/** Deactivation deadlines count uptime, not wall-clock time.

    At startup ResumeAfterDowntime pushes every active deadline back by the time
    since the last heartbeat (internal/db/db.go, cmd/server/main.go). Over a whole
    run with a monotone clock and any pattern of heartbeats, crashes and restarts,
    that conserves the uptime an endpoint was promised. */
module Uptime {
  import opened Common
  import opened Conditions
  import opened Endpoints
  import opened Monitor

  /** By how much the restarts in a run push back every active deadline. */
  ghost function Credit(w: World, steps: seq<Step>): Time
    requires IsRun(w, steps)
    decreases |steps|
  {
    if steps == [] then 0
    else (if steps[0].Resume? then Downtime(w, steps[0].now) else 0) + Credit(Next(w, steps[0]), steps[1..])
  }

  /** For how long the process was really down before the restarts in a run. */
  ghost function TimeDown(w: World, steps: seq<Step>): Time
    requires IsRun(w, steps)
    decreases |steps|
  {
    if steps == [] then 0
    else (if steps[0].Resume? then steps[0].now - w.downSince else 0) + TimeDown(Next(w, steps[0]), steps[1..])
  }

  function Restarts(steps: seq<Step>): nat {
    if steps == [] then 0 else (if steps[0].Resume? then 1 else 0) + Restarts(steps[1..])
  }

  ghost predicate Monotone(w: World, steps: seq<Step>)
    requires IsRun(w, steps)
    decreases |steps|
  {
    steps == [] || (w.clock <= steps[0].now && Monotone(Next(w, steps[0]), steps[1..]))
  }

  /** Every crash comes at most `gap` after the last heartbeat that was stored. */
  ghost predicate BeatsWithin(w: World, steps: seq<Step>, gap: Time)
    requires IsRun(w, steps)
    decreases |steps|
  {
    steps == [] ||
    (&& (steps[0].Crash? ==> w.lastSeen.Some? && steps[0].now - w.lastSeen.value <= gap)
     && BeatsWithin(Next(w, steps[0]), steps[1..], gap))
  }

  /** The step edits endpoint `id`, switches it, or ends it with a notify-once match. */
  ghost predicate Rewrites(w: World, s: Step, id: Id)
    requires Enabled(w, s)
  {
    match s
    case Create(at, _, _) => at == id
    case Delete(at, _) => at == id
    case WriteEdit(ticket, _, _, _) => w.edits[ticket].id == id
    case Activate(at, _) => at == id
    case Deactivate(at, _) => at == id
    case RecordScheduled(at, result, _) => at == id && NotifiesOnce(w.batch[at], Process(w.batch[at], result, true))
    case RecordManual(ticket, result, _) =>
      var ping := w.manual[ticket];
      ping.id == id && NotifiesOnce(ping.snap, Process(ping.snap, result, ping.snap.active))
    case _ => false
  }

  ghost predicate Unedited(w: World, steps: seq<Step>, id: Id)
    requires IsRun(w, steps)
    decreases |steps|
  {
    steps == [] || (!Rewrites(w, steps[0], id) && Unedited(Next(w, steps[0]), steps[1..], id))
  }

  /** Recording a ping that raises no notify-once event for `id` leaves its activity and deadline alone. */
  lemma CommitKeepsDeadline(w: World, at: Id, snap: Row, result: PingResult, outcome: Outcome, manual: bool, now: Time, id: Id)
    requires id in w.rows && !(at == id && NotifiesOnce(snap, outcome))
    ensures var w' := Commit(w, at, snap, result, outcome, manual, now);
            && id in w'.rows
            && w'.rows[id].active == w.rows[id].active
            && w'.rows[id].deactivateAt == w.rows[id].deactivateAt
  {
    if at in w.rows {
      var row := Recorded(w.rows[at], snap, result, outcome, manual, now);
      assert Commit(w, at, snap, result, outcome, manual, now).rows == w.rows[at := row];
    }
  }

  lemma PingKeepsDeadline(w: World, s: Step, id: Id)
    requires Enabled(w, s) && !Rewrites(w, s, id) && id in w.rows && (s.RecordScheduled? || s.RecordManual?)
    ensures var w' := Effect(w, s);
            && id in w'.rows
            && w'.rows[id].active == w.rows[id].active
            && w'.rows[id].deactivateAt == w.rows[id].deactivateAt
  {
    match s {
      case RecordScheduled(at, result, now) =>
        var snap := w.batch[at];
        CommitKeepsDeadline(w.(batch := w.batch - {at}), at, snap, result, Process(snap, result, true), false, now, id);
      case RecordManual(ticket, result, now) =>
        var ping := w.manual[ticket];
        CommitKeepsDeadline(w.(manual := w.manual - {ticket}), ping.id, ping.snap, result,
                            Process(ping.snap, result, ping.snap.active), true, now, id);
    }
  }

  lemma EditKeepsOthers(w: World, s: Step, id: Id)
    requires Enabled(w, s) && !Rewrites(w, s, id) && id in w.rows
    requires s.Create? || s.Delete? || s.WriteEdit? || s.Activate? || s.Deactivate?
    ensures id in Effect(w, s).rows && Effect(w, s).rows[id] == w.rows[id]
  {
  }

  /** What one step can do to the deadline of an endpoint it does not edit. */
  lemma StepMovesDeadline(w: World, s: Step, id: Id)
    requires Enabled(w, s) && !Rewrites(w, s, id) && id in w.rows
    ensures var w' := Next(w, s);
            && id in w'.rows
            && (w'.rows[id].active ==> w.rows[id].active)
            && (w.rows[id].active && !w'.rows[id].active ==> s.Expire?)
            && (w'.rows[id].active && w.rows[id].deactivateAt.Some? ==>
                w'.rows[id].deactivateAt
                == Some(w.rows[id].deactivateAt.value + if s.Resume? then Downtime(w, s.now) else 0))
  {
    if s.RecordScheduled? || s.RecordManual? {
      PingKeepsDeadline(w, s, id);
    } else if s.Create? || s.Delete? || s.WriteEdit? || s.Activate? || s.Deactivate? {
      EditKeepsOthers(w, s, id);
    }
  }

  /** The deadline of an unedited endpoint is its original deadline plus the credit of the run. */
  lemma {:induction false} DeadlineConserved(w: World, steps: seq<Step>, id: Id)
    requires IsRun(w, steps) && Unedited(w, steps, id)
    requires id in w.rows
    ensures id in Final(w, steps).rows
    ensures IsActive(Final(w, steps), id) ==> IsActive(w, id)
    ensures IsActive(Final(w, steps), id) && w.rows[id].deactivateAt.Some? ==>
            Final(w, steps).rows[id].deactivateAt == Some(w.rows[id].deactivateAt.value + Credit(w, steps))
    decreases |steps|
  {
    if steps != [] {
      StepMovesDeadline(w, steps[0], id);
      DeadlineConserved(Next(w, steps[0]), steps[1..], id);
    }
  }

  ghost predicate TimesOk(w: World) {
    && w.lastSeen.Some?
    && w.lastSeen.value <= (if w.up then w.clock else w.downSince)
    && (!w.up ==> w.downSince <= w.clock)
  }

  lemma StepClock(w: World, s: Step)
    requires Enabled(w, s)
    ensures var w' := Next(w, s);
            && w'.clock == s.now
            && w'.up == (if s.Crash? then false else true)
            && w'.lastSeen == (if s.Heartbeat? || s.Resume? then Some(s.now) else w.lastSeen)
            && w'.downSince == (if s.Crash? then s.now else w.downSince)
  {
  }

  /** No restart credits less than the time it was down. */
  lemma {:induction false} CreditCoversTimeDown(w: World, steps: seq<Step>)
    requires TimesOk(w) && IsRun(w, steps) && Monotone(w, steps)
    ensures TimesOk(Final(w, steps))
    ensures TimeDown(w, steps) <= Credit(w, steps)
    decreases |steps|
  {
    if steps != [] {
      StepClock(w, steps[0]);
      CreditCoversTimeDown(Next(w, steps[0]), steps[1..]);
    }
  }

  /** Each restart credits at most `gap` too much. */
  lemma {:induction false} CreditOverrun(w: World, steps: seq<Step>, gap: Time)
    requires TimesOk(w) && IsRun(w, steps) && Monotone(w, steps) && BeatsWithin(w, steps, gap)
    requires !w.up ==> w.downSince - w.lastSeen.value <= gap
    requires gap >= 0
    ensures Credit(w, steps) <= TimeDown(w, steps) + gap * Restarts(steps)
    decreases |steps|
  {
    if steps != [] {
      var w' := Next(w, steps[0]);
      StepClock(w, steps[0]);
      CreditOverrun(w', steps[1..], gap);
      if steps[0].Resume? {
        assert Downtime(w, steps[0].now) <= steps[0].now - w.downSince + gap;
        assert gap * Restarts(steps) == gap * Restarts(steps[1..]) + gap;
      } else {
        assert Restarts(steps) == Restarts(steps[1..]);
      }
    }
  }

  /** Once the process has started, a reachable world always has a last_seen no later than its clock. */
  lemma {:induction false} TimesStayOk(w: World, steps: seq<Step>)
    requires w.lastSeen.None? ==> !w.up
    requires w.lastSeen.Some? ==> TimesOk(w)
    requires IsRun(w, steps) && Monotone(w, steps)
    ensures Final(w, steps).up || Final(w, steps).lastSeen.Some? ==> TimesOk(Final(w, steps))
    decreases |steps|
  {
    if steps != [] {
      var w' := Next(w, steps[0]);
      StepClock(w, steps[0]);
      TimesStayOk(w', steps[1..]);
    }
  }

  /** The promise kept. An endpoint switched on at the end of `before`, with `limit` to
      run, goes through `after` unedited. When an expiry sweep then runs at `now`:
      - if it switches the endpoint off, the process was up for at least `limit`;
      - once it was up for `limit` plus one heartbeat gap per restart, it does. */
  lemma UptimeHonoured(before: seq<Step>, after: seq<Step>, id: Id, limit: Time, gap: Time, now: Time)
    requires IsRun(INITIAL, before) && Monotone(INITIAL, before)
    requires var w := Final(INITIAL, before);
             && w.up && IsActive(w, id) && w.rows[id].deactivateAt == Some(w.clock + limit)
             && IsRun(w, after) && Monotone(w, after) && Unedited(w, after, id)
             && IsActive(Final(w, after), id)
             && Enabled(Final(w, after), Expire(now))
    ensures var w := Final(INITIAL, before);
            var expires := !IsActive(Next(Final(w, after), Expire(now)), id);
            var uptime := now - w.clock - TimeDown(w, after);
            && (expires <==> now >= w.clock + limit + Credit(w, after))
            && (expires ==> uptime >= limit)
            && (gap >= 0 && BeatsWithin(w, after, gap) && uptime >= limit + gap * Restarts(after) ==> expires)
  {
    var w := Final(INITIAL, before);
    TimesStayOk(INITIAL, before);
    DeadlineConserved(w, after, id);
    CreditCoversTimeDown(w, after);
    if gap >= 0 && BeatsWithin(w, after, gap) {
      CreditOverrun(w, after, gap);
    }
  }
}
