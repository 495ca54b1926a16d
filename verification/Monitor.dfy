/** Whole runs of the monitor over its endpoint rows.

    A step is one SQL statement, or the point where a caller takes the snapshot it
    will act on later. A ping is two steps: the snapshot (LockDueEndpoints or
    GetEndpoint) and RecordPingResult, with anything in between. UpdateEndpoint is
    two steps as well, its read and its write. One scheduler process is assumed, so
    a batch is locked only when every ping of the previous batch has ended
    (internal/scheduler/scheduler.go, RunDueOnce waits for its workers). */
module Monitor {
  import opened Common
  import opened Conditions
  import opened Endpoints

  type Ticket = nat

  datatype InFlight = InFlight(id: Id, snap: Row)

  datatype World = World(
    rows: map<Id, Row>,
    batch: map<Id, Row>,              // scheduled pings in flight: endpoint to snapshot
    manual: map<Ticket, InFlight>,    // manual pings in flight
    edits: map<Ticket, InFlight>,     // updates between their read and their write
    lastSeen: Option<Time>,           // app_runtime_state
    up: bool,
    clock: Time,                      // time of the latest step
    downSince: Time,                  // time of the latest crash
    past: History)                    // never read by the code

  datatype History = History(
    activations: map<Id, nat>,        // how often a row went from inactive (or absent) to active
    scheduledOnce: map<Id, nat>,      // notify-once events raised by scheduled pings
    manualOnce: map<Id, nat>,         // notify-once events raised by manual pings
    late: map<Id, nat>)               // those of them that found the row inactive or a scheduled ping in flight

  datatype Step =
    | Create(id: Id, record: EndpointRecord, now: Time)
    | Delete(id: Id, now: Time)
    | ReadForEdit(ticket: Ticket, id: Id, now: Time)
    | WriteEdit(ticket: Ticket, record: EndpointRecord, intervalChanged: bool, now: Time)
    | Activate(id: Id, now: Time)
    | Deactivate(id: Id, now: Time)
    | Expire(now: Time)
    | LockDue(picked: set<Id>, limit: nat, lockFor: Time, now: Time)
    | RecordScheduled(id: Id, result: PingResult, now: Time)
    | DropScheduled(id: Id, now: Time)         // the ping ended without a committed record
    | StartManual(ticket: Ticket, id: Id, now: Time)
    | RecordManual(ticket: Ticket, result: PingResult, now: Time)
    | DropManual(ticket: Ticket, now: Time)
    | Heartbeat(now: Time)
    | Crash(now: Time)                         // the process stops, cleanly or not
    | Resume(now: Time)                        // the process starts: ResumeAfterDowntime comes first

  const INITIAL := World(map[], map[], map[], map[], None, false, 0, 0,
                         History(map[], map[], map[], map[]))

  ghost predicate Enabled(w: World, s: Step) {
    && (s.Resume? <==> !w.up)
    && match s
       case Create(id, _, _) => id !in w.rows
       case ReadForEdit(ticket, id, _) => ticket !in w.edits && id in w.rows
       case WriteEdit(ticket, _, _, _) => ticket in w.edits
       case LockDue(picked, limit, _, now) => w.batch == map[] && IsDueBatch(w.rows, picked, limit, now)
       case RecordScheduled(id, _, _) => id in w.batch
       case DropScheduled(id, _) => id in w.batch
       case StartManual(ticket, id, _) => ticket !in w.manual && id in w.rows
       case RecordManual(ticket, _, _) => ticket in w.manual
       case DropManual(ticket, _) => ticket in w.manual
       case _ => true
  }

  predicate IsActive(w: World, id: Id) {
    id in w.rows && w.rows[id].active
  }

  /** Store a row, counting the write when it switches the endpoint on. */
  function Put(w: World, id: Id, row: Row): World {
    w.(rows := w.rows[id := row],
       past := w.past.(activations := if row.active && !IsActive(w, id)
                                      then Bump(w.past.activations, id) else w.past.activations))
  }

  /** RecordPingResult. A deleted endpoint fails its foreign key and leaves no trace. */
  function Commit(w: World, id: Id, snap: Row, result: PingResult, outcome: Outcome, manual: bool, now: Time): World {
    if id !in w.rows then w
    else
      var put := Put(w, id, Recorded(w.rows[id], snap, result, outcome, manual, now));
      put.(past := CountPing(put.past, id, NotifiesOnce(snap, outcome), manual, !IsActive(w, id) || id in w.batch))
  }

  function CountPing(past: History, id: Id, once: bool, manual: bool, late: bool): History {
    past.(scheduledOnce := if once && !manual then Bump(past.scheduledOnce, id) else past.scheduledOnce,
          manualOnce := if once && manual then Bump(past.manualOnce, id) else past.manualOnce,
          late := if once && manual && late then Bump(past.late, id) else past.late)
  }

  /** The write of UpdateEndpoint. An endpoint deleted since the read is left alone. */
  function FinishEdit(w: World, edit: InFlight, record: EndpointRecord, intervalChanged: bool, now: Time): World {
    if edit.id !in w.rows then w
    else Put(w, edit.id, Updated(w.rows[edit.id], edit.snap, record, intervalChanged, now))
  }

  function Downtime(w: World, now: Time): Time {
    TimeSince(w.lastSeen, now)
  }

  function Effect(w: World, s: Step): World
    requires Enabled(w, s)
  {
    match s
    case Create(id, record, now) => Put(w, id, Created(record, now))
    case Delete(id, _) => w.(rows := w.rows - {id})
    case ReadForEdit(ticket, id, _) => w.(edits := w.edits[ticket := InFlight(id, w.rows[id])])
    case WriteEdit(ticket, record, intervalChanged, now) =>
      FinishEdit(w.(edits := w.edits - {ticket}), w.edits[ticket], record, intervalChanged, now)
    case Activate(id, now) => if id in w.rows then Put(w, id, Activated(w.rows[id], now)) else w
    case Deactivate(id, _) => if id in w.rows then Put(w, id, TurnedOff(w.rows[id], Manual)) else w
    case Expire(now) => w.(rows := SweptRows(w.rows, now))
    case LockDue(picked, _, lockFor, now) =>
      w.(rows := LockedRows(w.rows, picked, now, lockFor),
         batch := map id | id in picked && id in w.rows :: w.rows[id])
    case RecordScheduled(id, result, now) =>
      var snap := w.batch[id];
      Commit(w.(batch := w.batch - {id}), id, snap, result, Process(snap, result, true), false, now)
    case DropScheduled(id, _) => w.(batch := w.batch - {id})
    case StartManual(ticket, id, _) => w.(manual := w.manual[ticket := InFlight(id, w.rows[id])])
    case RecordManual(ticket, result, now) =>
      var ping := w.manual[ticket];
      Commit(w.(manual := w.manual - {ticket}), ping.id, ping.snap, result,
             Process(ping.snap, result, ping.snap.active), true, now)
    case DropManual(ticket, _) => w.(manual := w.manual - {ticket})
    case Heartbeat(now) => w.(lastSeen := Some(now))
    case Crash(now) => w.(up := false, downSince := now, batch := map[], manual := map[], edits := map[])
    case Resume(now) =>
      w.(up := true, lastSeen := Some(now),
         rows := if Downtime(w, now) > 0 then ExtendedRows(w.rows, Downtime(w, now)) else w.rows)
  }

  function Next(w: World, s: Step): World
    requires Enabled(w, s)
  {
    Effect(w, s).(clock := s.now)
  }

  ghost predicate IsRun(w: World, steps: seq<Step>)
    decreases |steps|
  {
    steps == [] || (Enabled(w, steps[0]) && IsRun(Next(w, steps[0]), steps[1..]))
  }

  ghost function Final(w: World, steps: seq<Step>): World
    requires IsRun(w, steps)
    decreases |steps|
  {
    if steps == [] then w else Final(Next(w, steps[0]), steps[1..])
  }

  /** A run followed by a run is a run. */
  lemma {:induction false} RunsJoin(w: World, first: seq<Step>, second: seq<Step>)
    requires IsRun(w, first) && IsRun(Final(w, first), second)
    ensures IsRun(w, first + second) && Final(w, first + second) == Final(Final(w, first), second)
    decreases |first|
  {
    hide Enabled, Effect, Next;
    if first == [] {
      assert first + second == second;
    } else {
      RunsJoin(Next(w, first[0]), first[1..], second);
      assert (first + second)[1..] == first[1..] + second;
    }
  }

  lemma TwoSteps(w: World, s: Step, t: Step)
    requires Enabled(w, s) && Enabled(Next(w, s), t)
    ensures IsRun(w, [s, t]) && Final(w, [s, t]) == Next(Next(w, s), t)
  {
    hide Enabled, Effect, Next;
    var last := [s, t][1..];
    assert last == [t] && last[1..] == [];
    assert IsRun(Next(Next(w, s), t), []);
    assert IsRun(Next(w, s), last) && Final(Next(w, s), last) == Next(Next(w, s), t);
  }

  // ---------------------------------------------------------------- row invariant

  ghost predicate RowOk(row: Row) {
    && (row.deactivateAt.Some? ==> row.active)
    && (row.lockedUntil.Some? ==> row.active && row.nextRunAt.Some?)
    && (row.active ==> row.deactivatedReason.None? && row.state != Deactivated)
  }

  ghost predicate RowsOk(w: World) {
    && (forall id :: id in w.rows ==> RowOk(w.rows[id]))
    && (forall id :: id in w.batch ==> RowOk(w.batch[id]) && w.batch[id].active && w.batch[id].nextRunAt.Some?)
    && (forall t :: t in w.edits ==> RowOk(w.edits[t].snap))
    && (forall t :: t in w.manual ==> RowOk(w.manual[t].snap))
  }

  lemma RecordedIsOk(row: Row, snap: Row, result: PingResult, evaluate: bool, manual: bool, now: Time)
    requires RowOk(row) && RowOk(snap)
    requires snap.active || manual
    ensures RowOk(Recorded(row, snap, result, Process(snap, result, evaluate), manual, now))
  {
  }

  lemma PutKeepsRowsOk(w: World, id: Id, row: Row)
    requires RowsOk(w) && RowOk(row)
    ensures RowsOk(Put(w, id, row))
  {
  }

  lemma CommitKeepsRowsOk(w: World, id: Id, snap: Row, result: PingResult, evaluate: bool, manual: bool, now: Time)
    requires RowsOk(w) && RowOk(snap) && (snap.active || manual)
    ensures RowsOk(Commit(w, id, snap, result, Process(snap, result, evaluate), manual, now))
  {
    if id in w.rows {
      var row := Recorded(w.rows[id], snap, result, Process(snap, result, evaluate), manual, now);
      RecordedIsOk(w.rows[id], snap, result, evaluate, manual, now);
      PutKeepsRowsOk(w, id, row);
    }
  }

  lemma PingKeepsRowsOk(w: World, s: Step)
    requires RowsOk(w) && Enabled(w, s) && IsPing(s)
    ensures RowsOk(Effect(w, s))
  {
    match s {
      case RecordScheduled(id, result, now) =>
        CommitKeepsRowsOk(w.(batch := w.batch - {id}), id, w.batch[id], result, true, false, now);
      case RecordManual(ticket, result, now) =>
        var ping := w.manual[ticket];
        CommitKeepsRowsOk(w.(manual := w.manual - {ticket}), ping.id, ping.snap, result, ping.snap.active, true, now);
    }
  }

  lemma FinishEditKeepsRowsOk(w: World, edit: InFlight, record: EndpointRecord, intervalChanged: bool, now: Time)
    requires RowsOk(w) && RowOk(edit.snap)
    ensures RowsOk(FinishEdit(w, edit, record, intervalChanged, now))
  {
    if edit.id in w.rows {
      PutKeepsRowsOk(w, edit.id, Updated(w.rows[edit.id], edit.snap, record, intervalChanged, now));
    }
  }

  lemma EditKeepsRowsOk(w: World, s: Step)
    requires RowsOk(w) && Enabled(w, s) && IsEdit(s)
    ensures RowsOk(Effect(w, s))
  {
    match s {
      case Create(id, record, now) => PutKeepsRowsOk(w, id, Created(record, now));
      case WriteEdit(ticket, record, intervalChanged, now) =>
        FinishEditKeepsRowsOk(w.(edits := w.edits - {ticket}), w.edits[ticket], record, intervalChanged, now);
      case Activate(id, now) => if id in w.rows { PutKeepsRowsOk(w, id, Activated(w.rows[id], now)); }
      case Deactivate(id, _) => if id in w.rows { PutKeepsRowsOk(w, id, TurnedOff(w.rows[id], Manual)); }
    }
  }

  lemma SweepKeepsRowsOk(w: World, s: Step)
    requires RowsOk(w) && Enabled(w, s) && IsSweep(s)
    ensures RowsOk(Effect(w, s))
  {
  }

  predicate IsPing(s: Step) {
    s.RecordScheduled? || s.RecordManual?
  }

  predicate IsEdit(s: Step) {
    s.Create? || s.WriteEdit? || s.Activate? || s.Deactivate?
  }

  predicate IsSweep(s: Step) {
    s.Expire? || s.LockDue? || s.Resume?
  }

  lemma QuietKeepsRowsOk(w: World, s: Step)
    requires RowsOk(w) && Enabled(w, s) && !IsPing(s) && !IsEdit(s) && !IsSweep(s)
    ensures RowsOk(Effect(w, s))
  {
  }

  lemma StepKeepsRowsOk(w: World, s: Step)
    requires RowsOk(w) && Enabled(w, s)
    ensures RowsOk(Next(w, s))
  {
    hide Enabled, Effect;
    if IsPing(s) {
      PingKeepsRowsOk(w, s);
    } else if IsEdit(s) {
      EditKeepsRowsOk(w, s);
    } else if IsSweep(s) {
      SweepKeepsRowsOk(w, s);
    } else {
      QuietKeepsRowsOk(w, s);
    }
  }

  /** Every row of every reachable state satisfies RowOk. */
  lemma {:induction false} RunKeepsRowsOk(w: World, steps: seq<Step>)
    requires RowsOk(w) && IsRun(w, steps)
    ensures RowsOk(Final(w, steps))
    decreases |steps|
  {
    if steps != [] {
      StepKeepsRowsOk(w, steps[0]);
      RunKeepsRowsOk(Next(w, steps[0]), steps[1..]);
    }
  }

  // ---------------------------------------------------------------- active endpoints stay scheduled

  ghost predicate Scheduled(row: Row) {
    row.active ==> row.nextRunAt.Some?
  }

  ghost predicate AllScheduled(w: World) {
    && (forall id :: id in w.rows ==> Scheduled(w.rows[id]))
    && (forall t :: t in w.edits ==> Scheduled(w.edits[t].snap))
  }

  /** A manual ping that began while its endpoint was inactive is recorded after
      the endpoint was switched on. */
  ghost predicate Overlaps(w: World, s: Step)
    requires Enabled(w, s)
  {
    s.RecordManual? && !w.manual[s.ticket].snap.active && IsActive(w, w.manual[s.ticket].id)
  }

  lemma PutAndSchedules(w: World, id: Id, row: Row)
    requires AllScheduled(w)
    ensures AllScheduled(Put(w, id, row)) <==> Scheduled(row)
  {
    assert Put(w, id, row).rows[id] == row;
  }

  lemma CommitAndSchedules(w: World, id: Id, snap: Row, result: PingResult, evaluate: bool, manual: bool, now: Time)
    requires AllScheduled(w)
    ensures AllScheduled(Commit(w, id, snap, result, Process(snap, result, evaluate), manual, now))
            <==> (snap.active || !IsActive(w, id) || NotifiesOnce(snap, Process(snap, result, evaluate)))
  {
    if id in w.rows {
      PutAndSchedules(w, id, Recorded(w.rows[id], snap, result, Process(snap, result, evaluate), manual, now));
    }
  }

  lemma PingAndSchedules(w: World, s: Step)
    requires RowsOk(w) && AllScheduled(w) && Enabled(w, s) && IsPing(s)
    ensures AllScheduled(Effect(w, s)) <==> !Overlaps(w, s)
  {
    match s {
      case RecordScheduled(id, result, now) =>
        CommitAndSchedules(w.(batch := w.batch - {id}), id, w.batch[id], result, true, false, now);
      case RecordManual(ticket, result, now) =>
        var ping := w.manual[ticket];
        CommitAndSchedules(w.(manual := w.manual - {ticket}), ping.id, ping.snap, result, ping.snap.active, true, now);
    }
  }

  lemma FinishEditKeepsScheduled(w: World, edit: InFlight, record: EndpointRecord, intervalChanged: bool, now: Time)
    requires AllScheduled(w) && Scheduled(edit.snap)
    ensures AllScheduled(FinishEdit(w, edit, record, intervalChanged, now))
  {
    if edit.id in w.rows {
      PutAndSchedules(w, edit.id, Updated(w.rows[edit.id], edit.snap, record, intervalChanged, now));
    }
  }

  lemma EditKeepsScheduled(w: World, s: Step)
    requires AllScheduled(w) && Enabled(w, s) && IsEdit(s)
    ensures AllScheduled(Effect(w, s))
  {
    match s {
      case Create(id, record, now) => PutAndSchedules(w, id, Created(record, now));
      case WriteEdit(ticket, record, intervalChanged, now) =>
        FinishEditKeepsScheduled(w.(edits := w.edits - {ticket}), w.edits[ticket], record, intervalChanged, now);
      case Activate(id, now) => if id in w.rows { PutAndSchedules(w, id, Activated(w.rows[id], now)); }
      case Deactivate(id, _) => if id in w.rows { PutAndSchedules(w, id, TurnedOff(w.rows[id], Manual)); }
    }
  }

  lemma SweepKeepsScheduled(w: World, s: Step)
    requires AllScheduled(w) && Enabled(w, s) && !IsPing(s) && !IsEdit(s)
    ensures AllScheduled(Effect(w, s))
  {
  }

  /** A step loses the schedule of an active endpoint exactly when it overlaps. */
  lemma StepKeepsScheduled(w: World, s: Step)
    requires RowsOk(w) && AllScheduled(w) && Enabled(w, s)
    ensures AllScheduled(Next(w, s)) <==> !Overlaps(w, s)
  {
    hide Enabled, Effect, RowsOk;
    if IsPing(s) {
      PingAndSchedules(w, s);
    } else if IsEdit(s) {
      EditKeepsScheduled(w, s);
    } else {
      SweepKeepsScheduled(w, s);
    }
  }

  ghost predicate NeverOverlaps(w: World, steps: seq<Step>)
    requires IsRun(w, steps)
    decreases |steps|
  {
    steps == [] || (!Overlaps(w, steps[0]) && NeverOverlaps(Next(w, steps[0]), steps[1..]))
  }

  /** Without such an overlap, an active endpoint always has a next run. */
  lemma {:induction false} RunKeepsScheduled(w: World, steps: seq<Step>)
    requires RowsOk(w) && AllScheduled(w) && IsRun(w, steps) && NeverOverlaps(w, steps)
    ensures AllScheduled(Final(w, steps))
    decreases |steps|
  {
    if steps != [] {
      StepKeepsRowsOk(w, steps[0]);
      StepKeepsScheduled(w, steps[0]);
      RunKeepsScheduled(Next(w, steps[0]), steps[1..]);
    }
  }

  /** No scheduler round can select the endpoint, and no ping in flight will change that. */
  ghost predicate Stranded(w: World, id: Id) {
    && (id in w.rows ==> w.rows[id].nextRunAt.None?)
    && id !in w.batch
    && (forall t :: t in w.manual && w.manual[t].id == id ==> !w.manual[t].snap.active)
  }

  /** The step writes the endpoint on request of a user, or starts another manual ping of it. */
  ghost predicate Touches(w: World, s: Step, id: Id)
    requires Enabled(w, s)
  {
    match s
    case Create(at, _, _) => at == id
    case WriteEdit(ticket, _, _, _) => w.edits[ticket].id == id
    case Activate(at, _) => at == id
    case StartManual(_, at, _) => at == id
    case _ => false
  }

  ghost predicate Untouched(w: World, steps: seq<Step>, id: Id)
    requires IsRun(w, steps)
    decreases |steps|
  {
    steps == [] || (!Touches(w, steps[0], id) && Untouched(Next(w, steps[0]), steps[1..], id))
  }

  lemma PingKeepsStranded(w: World, s: Step, id: Id)
    requires Stranded(w, id) && Enabled(w, s) && IsPing(s)
    ensures Stranded(Effect(w, s), id)
  {
    match s {
      case RecordScheduled(at, result, now) =>
        assert at != id;
      case RecordManual(ticket, result, now) =>
        var ping := w.manual[ticket];
        assert ping.id == id && id in w.rows ==>
          Recorded(w.rows[id], ping.snap, result, Process(ping.snap, result, ping.snap.active), true, now).nextRunAt.None?;
    }
  }

  lemma OthersKeepStranded(w: World, s: Step, id: Id)
    requires Stranded(w, id) && Enabled(w, s) && !Touches(w, s, id) && !IsPing(s)
    ensures Stranded(Effect(w, s), id)
    ensures s.LockDue? ==> id !in s.picked
  {
  }

  lemma StepKeepsStranded(w: World, s: Step, id: Id)
    requires Stranded(w, id) && Enabled(w, s) && !Touches(w, s, id)
    ensures Stranded(Next(w, s), id)
    ensures s.LockDue? ==> id !in s.picked
  {
    hide Effect;
    if IsPing(s) {
      PingKeepsStranded(w, s, id);
    } else {
      OthersKeepStranded(w, s, id);
    }
  }

  /** A stranded endpoint is passed over by every scheduler round until it is touched. */
  lemma {:induction false} StrandedUntilTouched(w: World, steps: seq<Step>, id: Id)
    requires Stranded(w, id) && IsRun(w, steps) && Untouched(w, steps, id)
    ensures Stranded(Final(w, steps), id)
    ensures forall i :: 0 <= i < |steps| && steps[i].LockDue? ==> id !in steps[i].picked
    decreases |steps|
  {
    if steps != [] {
      StepKeepsStranded(w, steps[0], id);
      StrandedUntilTouched(Next(w, steps[0]), steps[1..], id);
      assert forall i :: 0 < i < |steps| ==> steps[i] == steps[1..][i - 1];
    }
  }

  /** Touching it helps: one more manual ping that raises no notify-once event schedules the endpoint again. */
  lemma AnotherPingReschedules(w: World, ticket: Ticket, id: Id, result: PingResult, started: Time, now: Time)
    requires IsActive(w, id) && Enabled(w, StartManual(ticket, id, started))
    requires !NotifiesOnce(w.rows[id], Process(w.rows[id], result, true))
    ensures var pinged := Next(w, StartManual(ticket, id, started));
            && Enabled(pinged, RecordManual(ticket, result, now))
            && IsActive(Next(pinged, RecordManual(ticket, result, now)), id)
            && Next(pinged, RecordManual(ticket, result, now)).rows[id].nextRunAt.Some?
  {
  }

  /** A manual ping of an inactive endpoint, and the activation of that endpoint before the ping is recorded. */
  function ActivatedMeanwhile(record: EndpointRecord): seq<Step> {
    [Resume(0), Create(7, record.(active := false), 1)] + [StartManual(0, 7, 2), Activate(7, 3)]
  }

  /** The first start and one new endpoint. */
  lemma CreatedState(record: EndpointRecord)
    ensures var steps := [Resume(0), Create(7, record, 1)];
            IsRun(INITIAL, steps) && Final(INITIAL, steps) ==
            World(map[7 := Created(record, 1)], map[], map[], map[], Some(0), true, 1, 0,
                  History(if record.active then map[7 := 1] else map[], map[], map[], map[]))
  {
    TwoSteps(INITIAL, Resume(0), Create(7, record, 1));
  }

  lemma PingedAndActivated(w: World)
    requires w.up && 7 in w.rows && !w.rows[7].active && w.manual == map[]
    ensures var steps := [StartManual(0, 7, 2), Activate(7, 3)];
            IsRun(w, steps) && Final(w, steps) ==
            w.(rows := w.rows[7 := Activated(w.rows[7], 3)], manual := map[0 := InFlight(7, w.rows[7])], clock := 3,
               past := w.past.(activations := Bump(w.past.activations, 7)))
  {
    TwoSteps(w, StartManual(0, 7, 2), Activate(7, 3));
  }

  lemma ActivatedMeanwhileState(record: EndpointRecord)
    ensures var row := Created(record.(active := false), 1);
            IsRun(INITIAL, ActivatedMeanwhile(record)) && Final(INITIAL, ActivatedMeanwhile(record)) ==
            World(map[7 := Activated(row, 3)], map[], map[0 := InFlight(7, row)], map[], Some(0), true, 3, 0,
                  History(map[7 := 1], map[], map[], map[]))
  {
    hide Enabled, Effect, Next;
    var created := [Resume(0), Create(7, record.(active := false), 1)];
    CreatedState(record.(active := false));
    PingedAndActivated(Final(INITIAL, created));
    RunsJoin(INITIAL, created, [StartManual(0, 7, 2), Activate(7, 3)]);
  }

  function StrandingRun(record: EndpointRecord, result: PingResult): seq<Step> {
    ActivatedMeanwhile(record) + [RecordManual(0, result, 4)]
  }

  /** The overlap does happen. It leaves the endpoint active, and every scheduler round
      of whatever follows passes it over until somebody touches it. */
  lemma OverlapStrandsEndpoint(record: EndpointRecord, result: PingResult, after: seq<Step>)
    ensures IsRun(INITIAL, StrandingRun(record, result)) && !NeverOverlaps(INITIAL, StrandingRun(record, result))
    ensures var w := Final(INITIAL, StrandingRun(record, result));
            && IsActive(w, 7) && w.rows[7].nextRunAt.None?
            && (IsRun(w, after) && Untouched(w, after, 7) ==>
                forall i :: 0 <= i < |after| && after[i].LockDue? ==> 7 !in after[i].picked)
  {
    ActivatedMeanwhileState(record);
    var last, w := RecordManual(0, result, 4), Final(INITIAL, ActivatedMeanwhile(record));
    var stranded := Next(w, last);
    assert stranded.manual == map[] && stranded.batch == map[];
    assert stranded.rows[7].active && stranded.rows[7].nextRunAt.None?;
    assert [last][1..] == [] && IsRun(stranded, []) && IsRun(w, [last]) && Final(w, [last]) == stranded;
    RunsJoin(INITIAL, ActivatedMeanwhile(record), [last]);
    if NeverOverlaps(INITIAL, StrandingRun(record, result)) {
      RunKeepsScheduled(INITIAL, StrandingRun(record, result));
      assert false;
    }
    if IsRun(stranded, after) && Untouched(stranded, after, 7) {
      StrandedUntilTouched(stranded, after, 7);
    }
  }

  // ---------------------------------------------------------------- notify-once budget

  ghost predicate ActiveOrInFlight(w: World, id: Id) {
    IsActive(w, id) || id in w.batch
  }

  /** The notify-once events an endpoint has raised. */
  function Raised(w: World, id: Id): nat {
    Count(w.past.scheduledOnce, id) + Count(w.past.manualOnce, id)
  }

  /** One notify-once event per activation; only late manual events come on top. */
  ghost predicate WithinBudget(w: World, id: Id) {
    var pending := if ActiveOrInFlight(w, id) then 1 else 0;
    && Count(w.past.scheduledOnce, id) + pending <= Count(w.past.activations, id)
    && Count(w.past.scheduledOnce, id) + Count(w.past.manualOnce, id) + pending
       <= Count(w.past.activations, id) + Count(w.past.late, id)
  }

  lemma PutKeepsBudget(w: World, id: Id, at: Id, row: Row)
    requires WithinBudget(w, id)
    ensures WithinBudget(Put(w, at, row), id)
  {
  }

  /** The budget of an endpoint whose scheduled ping has just left the in-flight set: it still has one event to spend. */
  ghost predicate OneToSpend(w: World, id: Id) {
    && Count(w.past.scheduledOnce, id) + 1 <= Count(w.past.activations, id)
    && Count(w.past.scheduledOnce, id) + Count(w.past.manualOnce, id) + 1
       <= Count(w.past.activations, id) + Count(w.past.late, id)
  }

  /** `w` is the world after the ping left the in-flight set. */
  lemma CommitKeepsBudget(w: World, id: Id, at: Id, snap: Row, result: PingResult, outcome: Outcome, manual: bool, now: Time)
    requires if !manual && id == at then OneToSpend(w, id) && at !in w.batch else WithinBudget(w, id)
    ensures WithinBudget(Commit(w, at, snap, result, outcome, manual, now), id)
  {
    if at in w.rows {
      CommitActivity(w, at, snap, result, outcome, manual, now);
      CommitCounts(w, at, snap, result, outcome, manual, now, id);
    }
  }

  lemma CommitCounts(w: World, at: Id, snap: Row, result: PingResult, outcome: Outcome, manual: bool, now: Time, id: Id)
    requires at in w.rows
    ensures var past, past' := w.past, Commit(w, at, snap, result, outcome, manual, now).past;
            var one := if NotifiesOnce(snap, outcome) && id == at then 1 else 0;
            && Count(past'.scheduledOnce, id) == Count(past.scheduledOnce, id) + (if manual then 0 else one)
            && Count(past'.manualOnce, id) == Count(past.manualOnce, id) + (if manual then one else 0)
            && Count(past'.late, id)
               == Count(past.late, id) + (if manual && (!IsActive(w, at) || at in w.batch) then one else 0)
  {
  }

  /** Recording a ping never switches an endpoint on, and a notify-once event switches it off. */
  lemma CommitActivity(w: World, at: Id, snap: Row, result: PingResult, outcome: Outcome, manual: bool, now: Time)
    requires at in w.rows
    ensures var w' := Commit(w, at, snap, result, outcome, manual, now);
            && w'.batch == w.batch
            && w'.past.activations == w.past.activations
            && forall id :: IsActive(w', id) <==> IsActive(w, id) && !(id == at && NotifiesOnce(snap, outcome))
  {
  }

  lemma PingKeepsBudget(w: World, s: Step, id: Id)
    requires RowsOk(w) && Enabled(w, s) && WithinBudget(w, id) && IsPing(s)
    ensures WithinBudget(Effect(w, s), id)
  {
    match s {
      case RecordScheduled(at, result, now) =>
        var snap := w.batch[at];
        CommitKeepsBudget(w.(batch := w.batch - {at}), id, at, snap, result, Process(snap, result, true), false, now);
      case RecordManual(ticket, result, now) =>
        var ping := w.manual[ticket];
        CommitKeepsBudget(w.(manual := w.manual - {ticket}), id, ping.id, ping.snap, result,
                          Process(ping.snap, result, ping.snap.active), true, now);
    }
  }

  lemma FinishEditKeepsBudget(w: World, edit: InFlight, record: EndpointRecord, intervalChanged: bool, now: Time, id: Id)
    requires WithinBudget(w, id)
    ensures WithinBudget(FinishEdit(w, edit, record, intervalChanged, now), id)
  {
    if edit.id in w.rows {
      PutKeepsBudget(w, id, edit.id, Updated(w.rows[edit.id], edit.snap, record, intervalChanged, now));
    }
  }

  lemma EditKeepsBudget(w: World, s: Step, id: Id)
    requires Enabled(w, s) && WithinBudget(w, id) && IsEdit(s)
    ensures WithinBudget(Effect(w, s), id)
  {
    match s {
      case Create(at, record, now) => PutKeepsBudget(w, id, at, Created(record, now));
      case WriteEdit(ticket, record, intervalChanged, now) =>
        FinishEditKeepsBudget(w.(edits := w.edits - {ticket}), w.edits[ticket], record, intervalChanged, now, id);
      case Activate(at, now) => if at in w.rows { PutKeepsBudget(w, id, at, Activated(w.rows[at], now)); }
      case Deactivate(at, _) => if at in w.rows { PutKeepsBudget(w, id, at, TurnedOff(w.rows[at], Manual)); }
    }
  }

  lemma SweepKeepsBudget(w: World, s: Step, id: Id)
    requires Enabled(w, s) && WithinBudget(w, id) && !IsPing(s) && !IsEdit(s)
    ensures WithinBudget(Effect(w, s), id)
  {
  }

  lemma StepKeepsBudget(w: World, s: Step, id: Id)
    requires RowsOk(w) && Enabled(w, s) && WithinBudget(w, id)
    ensures WithinBudget(Next(w, s), id)
  {
    hide Enabled, Effect, RowsOk;
    if IsPing(s) {
      PingKeepsBudget(w, s, id);
    } else if IsEdit(s) {
      EditKeepsBudget(w, s, id);
    } else {
      SweepKeepsBudget(w, s, id);
    }
  }

  lemma {:induction false} RunKeepsBudget(w: World, steps: seq<Step>, id: Id)
    requires RowsOk(w) && WithinBudget(w, id) && IsRun(w, steps)
    ensures WithinBudget(Final(w, steps), id)
    decreases |steps|
  {
    if steps != [] {
      StepKeepsRowsOk(w, steps[0]);
      StepKeepsBudget(w, steps[0], id);
      RunKeepsBudget(Next(w, steps[0]), steps[1..], id);
    }
  }

  /** What the documentation promises: one notify-once event per activation, and an
      activation still to be spent while the endpoint is active or being pinged. */
  ghost predicate OnePerActivation(w: World, id: Id) {
    Raised(w, id) + (if ActiveOrInFlight(w, id) then 1 else 0) <= Count(w.past.activations, id)
  }

  /** A manual ping records a notify-once event on a row that is already off, or that a scheduled ping is still about. */
  ghost predicate ComesLate(w: World, s: Step, id: Id)
    requires Enabled(w, s)
  {
    && s.RecordManual? && w.manual[s.ticket].id == id && id in w.rows
    && (!IsActive(w, id) || id in w.batch)
    && var snap := w.manual[s.ticket].snap; NotifiesOnce(snap, Process(snap, s.result, snap.active))
  }

  /** A late event when every activation has its event already, or has one pending. */
  ghost predicate Overspends(w: World, s: Step, id: Id)
    requires Enabled(w, s)
  {
    && ComesLate(w, s, id)
    && Raised(w, id) + (if ActiveOrInFlight(w, id) then 1 else 0) == Count(w.past.activations, id)
  }

  lemma PutKeepsPromise(w: World, id: Id, at: Id, row: Row)
    requires OnePerActivation(w, id)
    ensures OnePerActivation(Put(w, at, row), id)
  {
  }

  lemma FinishEditKeepsPromise(w: World, edit: InFlight, record: EndpointRecord, intervalChanged: bool, now: Time, id: Id)
    requires OnePerActivation(w, id)
    ensures OnePerActivation(FinishEdit(w, edit, record, intervalChanged, now), id)
  {
    if edit.id in w.rows {
      PutKeepsPromise(w, id, edit.id, Updated(w.rows[edit.id], edit.snap, record, intervalChanged, now));
    }
  }

  lemma EditKeepsPromise(w: World, s: Step, id: Id)
    requires Enabled(w, s) && OnePerActivation(w, id) && IsEdit(s)
    ensures OnePerActivation(Effect(w, s), id)
  {
    match s {
      case Create(at, record, now) => PutKeepsPromise(w, id, at, Created(record, now));
      case WriteEdit(ticket, record, intervalChanged, now) =>
        FinishEditKeepsPromise(w.(edits := w.edits - {ticket}), w.edits[ticket], record, intervalChanged, now, id);
      case Activate(at, now) => if at in w.rows { PutKeepsPromise(w, id, at, Activated(w.rows[at], now)); }
      case Deactivate(at, _) => if at in w.rows { PutKeepsPromise(w, id, at, TurnedOff(w.rows[at], Manual)); }
    }
  }

  lemma SweepKeepsPromise(w: World, s: Step, id: Id)
    requires Enabled(w, s) && OnePerActivation(w, id) && !IsPing(s) && !IsEdit(s)
    ensures OnePerActivation(Effect(w, s), id)
  {
  }

  lemma ScheduledKeepsPromise(w: World, s: Step, id: Id)
    requires Enabled(w, s) && OnePerActivation(w, id) && s.RecordScheduled?
    ensures OnePerActivation(Effect(w, s), id)
  {
    var w' := w.(batch := w.batch - {s.id});
    var snap, outcome := w.batch[s.id], Process(w.batch[s.id], s.result, true);
    if s.id in w.rows {
      CommitActivity(w', s.id, snap, s.result, outcome, false, s.now);
      CommitCounts(w', s.id, snap, s.result, outcome, false, s.now, id);
    }
  }

  lemma ManualKeepsPromise(w: World, s: Step, id: Id)
    requires Enabled(w, s) && OnePerActivation(w, id) && s.RecordManual?
    ensures OnePerActivation(Effect(w, s), id) <==> !Overspends(w, s, id)
  {
    var ping := w.manual[s.ticket];
    var w' := w.(manual := w.manual - {s.ticket});
    var outcome := Process(ping.snap, s.result, ping.snap.active);
    if ping.id in w.rows {
      CommitActivity(w', ping.id, ping.snap, s.result, outcome, true, s.now);
      CommitCounts(w', ping.id, ping.snap, s.result, outcome, true, s.now, id);
    }
  }

  /** A step breaks the promise exactly when it overspends: a late event with no activation left for it. */
  lemma StepKeepsPromise(w: World, s: Step, id: Id)
    requires Enabled(w, s) && OnePerActivation(w, id)
    ensures OnePerActivation(Next(w, s), id) <==> !Overspends(w, s, id)
  {
    assert !s.RecordManual? ==> !Overspends(w, s, id);
    hide Enabled, Effect, Overspends;
    if s.RecordManual? {
      ManualKeepsPromise(w, s, id);
    } else if s.RecordScheduled? {
      ScheduledKeepsPromise(w, s, id);
    } else if IsEdit(s) {
      EditKeepsPromise(w, s, id);
    } else {
      SweepKeepsPromise(w, s, id);
    }
  }

  /** The promise holds in every state of the run. */
  ghost predicate Promised(w: World, steps: seq<Step>, id: Id)
    requires IsRun(w, steps)
    decreases |steps|
  {
    OnePerActivation(w, id) && (steps == [] || Promised(Next(w, steps[0]), steps[1..], id))
  }

  ghost predicate NeverOverspends(w: World, steps: seq<Step>, id: Id)
    requires IsRun(w, steps)
    decreases |steps|
  {
    steps == [] || (!Overspends(w, steps[0], id) && NeverOverspends(Next(w, steps[0]), steps[1..], id))
  }

  lemma {:induction false} PromiseInRuns(w: World, steps: seq<Step>, id: Id)
    requires OnePerActivation(w, id) && IsRun(w, steps)
    ensures Promised(w, steps, id) <==> NeverOverspends(w, steps, id)
    decreases |steps|
  {
    if steps != [] {
      StepKeepsPromise(w, steps[0], id);
      if !Overspends(w, steps[0], id) {
        PromiseInRuns(Next(w, steps[0]), steps[1..], id);
      }
    }
  }

  /** From an empty database, one notify-once event per activation holds throughout a run
      if and only if no step of it overspends. */
  lemma OneAlertPerActivation(steps: seq<Step>, id: Id)
    requires IsRun(INITIAL, steps)
    ensures Promised(INITIAL, steps, id) <==> NeverOverspends(INITIAL, steps, id)
  {
    PromiseInRuns(INITIAL, steps, id);
  }

  /** From an empty database, whatever interleaving follows: scheduled pings raise at
      most one notify-once event per activation, and all pings together at most one per
      activation and one per late manual event. Both bounds are strict while the endpoint
      is still active or being pinged. */
  lemma NotifyOnceBudget(steps: seq<Step>, id: Id)
    requires IsRun(INITIAL, steps)
    ensures var w := Final(INITIAL, steps);
            var pending := if ActiveOrInFlight(w, id) then 1 else 0;
            && Count(w.past.scheduledOnce, id) + pending <= Count(w.past.activations, id)
            && Count(w.past.scheduledOnce, id) + Count(w.past.manualOnce, id) + pending
               <= Count(w.past.activations, id) + Count(w.past.late, id)
  {
    RunKeepsBudget(INITIAL, steps, id);
  }

  /** An endpoint created active, and two manual pings that both start before either is recorded. */
  function TwicePinged(record: EndpointRecord): seq<Step> {
    [Resume(0), Create(7, record, 1)] + [StartManual(0, 7, 2), StartManual(1, 7, 2)]
  }

  lemma TwicePingedState(record: EndpointRecord)
    requires record.active
    ensures var row := Created(record, 1);
            IsRun(INITIAL, TwicePinged(record)) && Final(INITIAL, TwicePinged(record)) ==
            World(map[7 := row], map[], map[0 := InFlight(7, row), 1 := InFlight(7, row)], map[], Some(0), true, 2, 0,
                  History(map[7 := 1], map[], map[], map[]))
  {
    var created := [Resume(0), Create(7, record, 1)];
    CreatedState(record);
    TwoSteps(Final(INITIAL, created), StartManual(0, 7, 2), StartManual(1, 7, 2));
    RunsJoin(INITIAL, created, [StartManual(0, 7, 2), StartManual(1, 7, 2)]);
  }

  /** Two manual pings of one active row, recorded one after the other: the second comes late. */
  lemma RecordedTwice(w: World, row: Row, first: PingResult, second: PingResult)
    requires w.up && 7 in w.rows && w.rows[7].active && w.batch == map[]
    requires w.manual == map[0 := InFlight(7, row), 1 := InFlight(7, row)]
    requires row.active
    requires NotifiesOnce(row, Process(row, first, true)) && NotifiesOnce(row, Process(row, second, true))
    ensures var steps := [RecordManual(0, first, 3), RecordManual(1, second, 4)];
            IsRun(w, steps)
            && var past := Final(w, steps).past;
               && past.activations == w.past.activations
               && Count(past.manualOnce, 7) == Count(w.past.manualOnce, 7) + 2
               && Count(past.late, 7) == Count(w.past.late, 7) + 1
  {
    var record1, record2 := RecordManual(0, first, 3), RecordManual(1, second, 4);
    var w1 := Next(w, record1);
    CommitCounts(w.(manual := w.manual - {0}), 7, row, first, Process(row, first, true), true, 3, 7);
    assert w1.manual == map[1 := InFlight(7, row)] && 7 in w1.rows && !w1.rows[7].active;
    CommitCounts(w1.(manual := w1.manual - {1}), 7, row, second, Process(row, second, true), true, 4, 7);
    TwoSteps(w, record1, record2);
  }

  /** Late manual events do exceed the activations: both pings match, one activation, two events. */
  lemma LateEventExceeds(record: EndpointRecord, first: PingResult, second: PingResult)
    requires record.active && !record.continueOnMatch
    requires Matches(record.notifyCondition, None, None, first) == Some(true)
    requires Matches(record.notifyCondition, None, None, second) == Some(true)
    ensures var steps := TwicePinged(record) + [RecordManual(0, first, 3), RecordManual(1, second, 4)];
            IsRun(INITIAL, steps)
            && var past := Final(INITIAL, steps).past;
               Count(past.activations, 7) == 1 && Count(past.manualOnce, 7) == 2 && Count(past.late, 7) == 1
  {
    hide Enabled, Effect, Next;
    TwicePingedState(record);
    var row := Created(record, 1);
    RecordedTwice(Final(INITIAL, TwicePinged(record)), row, first, second);
    RunsJoin(INITIAL, TwicePinged(record), [RecordManual(0, first, 3), RecordManual(1, second, 4)]);
  }

  /** The row invariant of every state reachable from an empty database. */
  lemma ReachableRows(steps: seq<Step>)
    requires IsRun(INITIAL, steps)
    ensures RowsOk(Final(INITIAL, steps))
    ensures NeverOverlaps(INITIAL, steps) ==> AllScheduled(Final(INITIAL, steps))
  {
    RunKeepsRowsOk(INITIAL, steps);
    if NeverOverlaps(INITIAL, steps) {
      RunKeepsScheduled(INITIAL, steps);
    }
  }
}
