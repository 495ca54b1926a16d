/** No endpoint starves, over the runs of the monitor: while a due endpoint is left alone,
    every scheduler round that passes it over takes a full batch of endpoints from those
    scheduled at or before it, and a step brings a new one there only in the ways listed. */
module SchedulingRuns {
  import opened Common
  import opened Conditions
  import opened Endpoints
  import opened Monitor
  import Scheduling

  /** Active, to run at or before `due`. */
  predicate IsAhead(row: Row, due: Time) {
    row.active && row.nextRunAt.Some? && row.nextRunAt.value <= due
  }

  /** The endpoints other than `x` to run at or before `due` and not being pinged. */
  function Waiting(w: World, x: Id, due: Time): set<Id> {
    set id | id in w.rows && id != x && id !in w.batch && IsAhead(w.rows[id], due)
  }

  /** `x` is scheduled for `due`, not being pinged, and free of its lock from `since` on. */
  predicate Waits(w: World, x: Id, due: Time, since: Time) {
    && x in w.rows && x !in w.batch && due <= since
    && w.rows[x].active && w.rows[x].nextRunAt == Some(due)
    && (w.rows[x].lockedUntil.None? || w.rows[x].lockedUntil.value < since)
  }

  /** The step leaves `x` alone and comes no earlier than `since`; a round locks at least `limit` endpoints if it can. */
  ghost predicate Spares(w: World, s: Step, x: Id, limit: nat, since: Time)
    requires Enabled(w, s)
  {
    match s
    case Create(at, _, _) => at != x
    case Delete(at, _) => at != x
    case WriteEdit(ticket, _, _, _) => w.edits[ticket].id != x
    case Activate(at, _) => at != x
    case Deactivate(at, _) => at != x
    case Expire(now) => x in w.rows ==> !IsExpired(w.rows[x], now)
    case LockDue(_, most, _, now) => limit <= most && since <= now
    case RecordManual(ticket, _, _) => w.manual[ticket].id != x
    case _ => true
  }

  /** How many endpoints a step may bring to the front: none, except by switching one on in
      the past, by an edit that writes an old next run, by a ping whose next run is already
      over, or by ending pings without a record. */
  function MayEnter(w: World, s: Step, due: Time): nat
    requires match s
             case WriteEdit(ticket, _, _, _) => ticket in w.edits
             case RecordScheduled(id, _, _) => id in w.batch
             case RecordManual(ticket, _, _) => ticket in w.manual
             case _ => true
  {
    match s
    case Create(_, _, now) => if now <= due then 1 else 0
    case Activate(_, now) => if now <= due then 1 else 0
    case WriteEdit(ticket, _, _, now) =>
      var stale := w.edits[ticket].snap.nextRunAt;
      if now <= due || (stale.Some? && stale.value <= due) then 1 else 0
    case RecordScheduled(id, result, _) =>
      if result.finishedAt + w.batch[id].pingIntervalSeconds * SECOND <= due then 1 else 0
    case RecordManual(ticket, result, _) =>
      if result.finishedAt + w.manual[ticket].snap.pingIntervalSeconds * SECOND <= due then 1 else 0
    case DropScheduled(_, _) => 1
    case Crash(_) => |w.batch|
    case _ => 0
  }

  // ---------------------------------------------------------------- one step

  lemma LockKeepsWaits(w: World, s: Step, x: Id, due: Time, limit: nat, since: Time)
    requires Enabled(w, s) && s.LockDue? && Waits(w, x, due, since) && Spares(w, s, x, limit, since) && x !in s.picked
    ensures Waits(Next(w, s), x, due, since)
  {
  }

  lemma CommitKeepsRow(w: World, at: Id, snap: Row, result: PingResult, outcome: Outcome, manual: bool, now: Time, x: Id)
    requires at != x && x in w.rows
    ensures var w' := Commit(w, at, snap, result, outcome, manual, now);
            x in w'.rows && w'.rows[x] == w.rows[x] && w'.batch == w.batch
  {
  }

  lemma PingKeepsWaits(w: World, s: Step, x: Id, due: Time, limit: nat, since: Time)
    requires Enabled(w, s) && IsPing(s) && Waits(w, x, due, since) && Spares(w, s, x, limit, since)
    ensures Waits(Effect(w, s), x, due, since)
  {
    match s {
      case RecordScheduled(at, result, now) =>
        CommitKeepsRow(w.(batch := w.batch - {at}), at, w.batch[at], result, Process(w.batch[at], result, true), false, now, x);
      case RecordManual(ticket, result, now) =>
        var ping := w.manual[ticket];
        CommitKeepsRow(w.(manual := w.manual - {ticket}), ping.id, ping.snap, result,
                       Process(ping.snap, result, ping.snap.active), true, now, x);
    }
  }

  lemma OthersKeepWaits(w: World, s: Step, x: Id, due: Time, limit: nat, since: Time)
    requires Enabled(w, s) && !IsPing(s) && !s.LockDue? && Waits(w, x, due, since) && Spares(w, s, x, limit, since)
    ensures Waits(Effect(w, s), x, due, since)
  {
  }

  lemma StepKeepsWaits(w: World, s: Step, x: Id, due: Time, limit: nat, since: Time)
    requires Enabled(w, s) && Waits(w, x, due, since) && Spares(w, s, x, limit, since)
    requires s.LockDue? ==> x !in s.picked
    ensures Waits(Next(w, s), x, due, since)
  {
    if s.LockDue? {
      LockKeepsWaits(w, s, x, due, limit, since);
    } else if IsPing(s) {
      hide Enabled, Effect;
      PingKeepsWaits(w, s, x, due, limit, since);
    } else {
      hide Enabled, Effect;
      OthersKeepWaits(w, s, x, due, limit, since);
    }
  }

  /** A round that passes `x` over takes at least `limit` endpoints that were waiting ahead of it. */
  lemma RoundTakes(w: World, s: Step, x: Id, due: Time, limit: nat, since: Time)
    requires Enabled(w, s) && s.LockDue? && Waits(w, x, due, since) && Spares(w, s, x, limit, since) && x !in s.picked
    ensures |Waiting(Next(w, s), x, due)| + limit <= |Waiting(w, x, due)|
  {
    assert IsDue(w.rows[x], s.now);
    assert s.picked <= Waiting(w, x, due);
    assert Waiting(Next(w, s), x, due) <= Waiting(w, x, due) - s.picked;
    SubsetSize(s.picked, Waiting(w, x, due));
    SubsetSize(Waiting(Next(w, s), x, due), Waiting(w, x, due) - s.picked);
  }

  lemma SizeWithOne(after: set<Id>, before: set<Id>, id: Id)
    requires after <= before + {id}
    ensures |after| <= |before| + 1
  {
    SubsetSize(after, before + {id});
  }

  lemma SizeWithMore(after: set<Id>, before: set<Id>, more: set<Id>)
    requires after <= before + more
    ensures |after| <= |before| + |more|
  {
    SubsetSize(after, before + more);
    assert before + more == before + (more - before);
    SubsetSize(more - before, more);
  }

  /** `w` is the world in which a row is stored, `before` what was waiting when its step began. */
  lemma PutEnters(w: World, at: Id, row: Row, x: Id, due: Time, before: set<Id>)
    requires Waiting(w, x, due) - {at} <= before
    ensures |Waiting(Put(w, at, row), x, due)| <= |before| + if IsAhead(row, due) then 1 else 0
  {
    var after := Waiting(Put(w, at, row), x, due);
    assert after - {at} <= before;
    if IsAhead(row, due) {
      SizeWithOne(after, before, at);
    } else {
      assert at !in after;
      SubsetSize(after, before);
    }
  }

  lemma EditEnters(w: World, s: Step, x: Id, due: Time)
    requires Enabled(w, s) && IsEdit(s)
    ensures |Waiting(Effect(w, s), x, due)| <= |Waiting(w, x, due)| + MayEnter(w, s, due)
  {
    var before := Waiting(w, x, due);
    match s {
      case Create(at, record, now) => PutEnters(w, at, Created(record, now), x, due, before);
      case WriteEdit(ticket, record, intervalChanged, now) =>
        var edit, w' := w.edits[ticket], w.(edits := w.edits - {ticket});
        assert Waiting(w', x, due) == before;
        if edit.id in w.rows {
          PutEnters(w', edit.id, Updated(w.rows[edit.id], edit.snap, record, intervalChanged, now), x, due, before);
        }
      case Activate(at, now) => if at in w.rows { PutEnters(w, at, Activated(w.rows[at], now), x, due, before); }
      case Deactivate(at, _) => if at in w.rows { PutEnters(w, at, TurnedOff(w.rows[at], Manual), x, due, before); }
    }
  }

  /** The next run that the record of a ping writes is its result's finish plus the interval of its snapshot. */
  lemma RecordedAhead(row: Row, snap: Row, result: PingResult, evaluate: bool, manual: bool, now: Time, due: Time)
    requires IsAhead(Recorded(row, snap, result, Process(snap, result, evaluate), manual, now), due)
    ensures result.finishedAt + snap.pingIntervalSeconds * SECOND <= due
  {
  }

  lemma CommitEnters(w: World, at: Id, snap: Row, result: PingResult, evaluate: bool, manual: bool, now: Time,
                     x: Id, due: Time, before: set<Id>)
    requires Waiting(w, x, due) - {at} <= before && (at !in w.rows ==> Waiting(w, x, due) <= before)
    ensures |Waiting(Commit(w, at, snap, result, Process(snap, result, evaluate), manual, now), x, due)|
         <= |before| + if result.finishedAt + snap.pingIntervalSeconds * SECOND <= due then 1 else 0
  {
    var outcome := Process(snap, result, evaluate);
    if at in w.rows {
      var row := Recorded(w.rows[at], snap, result, outcome, manual, now);
      if IsAhead(row, due) {
        RecordedAhead(w.rows[at], snap, result, evaluate, manual, now, due);
      }
      PutEnters(w, at, row, x, due, before);
      assert Waiting(Commit(w, at, snap, result, outcome, manual, now), x, due) == Waiting(Put(w, at, row), x, due);
    } else {
      SubsetSize(Waiting(w, x, due), before);
    }
  }

  lemma PingEnters(w: World, s: Step, x: Id, due: Time)
    requires Enabled(w, s) && IsPing(s)
    ensures |Waiting(Effect(w, s), x, due)| <= |Waiting(w, x, due)| + MayEnter(w, s, due)
  {
    match s {
      case RecordScheduled(at, result, now) =>
        CommitEnters(w.(batch := w.batch - {at}), at, w.batch[at], result, true, false, now, x, due, Waiting(w, x, due));
      case RecordManual(ticket, result, now) =>
        var ping := w.manual[ticket];
        CommitEnters(w.(manual := w.manual - {ticket}), ping.id, ping.snap, result, ping.snap.active, true, now,
                     x, due, Waiting(w, x, due));
    }
  }

  lemma DropEnters(w: World, s: Step, x: Id, due: Time)
    requires Enabled(w, s) && (s.DropScheduled? || s.Crash?)
    ensures |Waiting(Effect(w, s), x, due)| <= |Waiting(w, x, due)| + MayEnter(w, s, due)
  {
    var before, after := Waiting(w, x, due), Waiting(Effect(w, s), x, due);
    if s.Crash? {
      SizeWithMore(after, before, w.batch.Keys);
    } else {
      SizeWithOne(after, before, s.id);
    }
  }

  lemma OthersEnter(w: World, s: Step, x: Id, due: Time)
    requires Enabled(w, s) && !IsPing(s) && !IsEdit(s) && !s.DropScheduled? && !s.Crash?
    ensures |Waiting(Effect(w, s), x, due)| <= |Waiting(w, x, due)|
  {
    SubsetSize(Waiting(Effect(w, s), x, due), Waiting(w, x, due));
  }

  /** A step brings no more endpoints to the front than it may. */
  lemma StepEnters(w: World, s: Step, x: Id, due: Time)
    requires Enabled(w, s)
    ensures |Waiting(Next(w, s), x, due)| <= |Waiting(w, x, due)| + MayEnter(w, s, due)
  {
    assert Waiting(Next(w, s), x, due) == Waiting(Effect(w, s), x, due);
    if IsEdit(s) {
      EditEnters(w, s, x, due);
    } else if IsPing(s) {
      PingEnters(w, s, x, due);
    } else if s.DropScheduled? || s.Crash? {
      DropEnters(w, s, x, due);
    } else {
      OthersEnter(w, s, x, due);
    }
  }

  // ---------------------------------------------------------------- whole runs

  predicate Picks(s: Step, x: Id) {
    s.LockDue? && x in s.picked
  }

  /** `x` is spared until it is picked. */
  ghost predicate Spared(w: World, steps: seq<Step>, x: Id, limit: nat, since: Time)
    requires IsRun(w, steps)
    decreases |steps|
  {
    steps == [] || Picks(steps[0], x) ||
    (Spares(w, steps[0], x, limit, since) && Spared(Next(w, steps[0]), steps[1..], x, limit, since))
  }

  /** How many endpoints the steps may bring to the front before `x` is picked. */
  ghost function Entries(w: World, steps: seq<Step>, x: Id, due: Time): nat
    requires IsRun(w, steps)
    decreases |steps|
  {
    if steps == [] || Picks(steps[0], x) then 0
    else MayEnter(w, steps[0], due) + Entries(Next(w, steps[0]), steps[1..], x, due)
  }

  function Rounds(steps: seq<Step>): nat {
    if steps == [] then 0 else (if steps[0].LockDue? then 1 else 0) + Rounds(steps[1..])
  }

  lemma RoundsStep(steps: seq<Step>, limit: nat)
    requires steps != []
    ensures limit * Rounds(steps) == limit * Rounds(steps[1..]) + if steps[0].LockDue? then limit else 0
  {
    if steps[0].LockDue? {
      Scheduling.Distribute(limit, Rounds(steps));
    }
  }

  lemma StepTakes(w: World, s: Step, x: Id, due: Time, limit: nat, since: Time)
    requires Enabled(w, s) && Waits(w, x, due, since) && Spares(w, s, x, limit, since) && !Picks(s, x)
    ensures |Waiting(Next(w, s), x, due)| + (if s.LockDue? then limit else 0) <= |Waiting(w, x, due)| + MayEnter(w, s, due)
  {
    hide Enabled, Effect, Next, Waiting, Waits, Spares;
    if s.LockDue? {
      RoundTakes(w, s, x, due, limit, since);
    } else {
      StepEnters(w, s, x, due);
    }
  }

  /** What all the rounds took was waiting at first or entered later. */
  lemma {:induction false} RoundsTake(w: World, steps: seq<Step>, x: Id, due: Time, limit: nat, since: Time)
    requires Waits(w, x, due, since) && IsRun(w, steps) && Spared(w, steps, x, limit, since)
    requires forall i :: 0 <= i < |steps| ==> !Picks(steps[i], x)
    ensures limit * Rounds(steps) <= |Waiting(w, x, due)| + Entries(w, steps, x, due)
    decreases |steps|
  {
    if steps != [] {
      assert !Picks(steps[0], x);
      assert steps[0].LockDue? ==> x !in steps[0].picked;
      hide Effect, Next, Enabled, Waits, Waiting, MayEnter, Spares, Rounds, Picks;
      assert forall i :: 0 <= i < |steps[1..]| ==> steps[1..][i] == steps[i + 1];
      StepKeepsWaits(w, steps[0], x, due, limit, since);
      StepTakes(w, steps[0], x, due, limit, since);
      RoundsTake(Next(w, steps[0]), steps[1..], x, due, limit, since);
      RoundsStep(steps, limit);
    }
  }

  /** In any interleaving that leaves `x` alone: with r endpoints waiting ahead of it and e
      entering later, `x` is picked within (r + e) / limit + 1 rounds. */
  lemma PickedInTime(w: World, steps: seq<Step>, x: Id, due: Time, limit: nat, since: Time)
    requires limit > 0 && Waits(w, x, due, since) && IsRun(w, steps) && Spared(w, steps, x, limit, since)
    requires Rounds(steps) >= (|Waiting(w, x, due)| + Entries(w, steps, x, due)) / limit + 1
    ensures exists i :: 0 <= i < |steps| && Picks(steps[i], x)
  {
    hide Effect, Next, Enabled, Waits, Waiting, MayEnter, Spares, Entries, Spared, Rounds;
    if forall i :: 0 <= i < |steps| ==> !Picks(steps[i], x) {
      RoundsTake(w, steps, x, due, limit, since);
      TooManyRounds(|Waiting(w, x, due)| + Entries(w, steps, x, due), limit, Rounds(steps));
    }
  }

  lemma TooManyRounds(total: nat, limit: nat, rounds: nat)
    requires limit > 0 && rounds >= total / limit + 1
    ensures limit * rounds > total
  {
    var q := total / limit;
    assert limit * (q + 1) > total;
    assert limit * rounds >= limit * (q + 1);
  }
}
