/** The endpoints and the outboxes in one system: a recorded ping writes the endpoint row
    and, in the same transaction, the outbox rows its match asks for. */
module EndToEnd {
  import opened Common
  import opened Conditions
  import opened Endpoints
  import opened Outbox
  import Monitor
  import OutboxRuns

  datatype System = System(
    monitor: Monitor.World,
    outbox: OutboxRuns.World,
    alerts: map<Id, set<Id>>)      // the notify-once events each endpoint ever raised; never read by the code

  datatype Step =
    | Watch(step: Monitor.Step)                    // a statement that leaves the outboxes alone
    | Ping(step: Monitor.Step, ids: FreshIds)      // the record of a ping
    | Deliver(delivery: OutboxRuns.Step)           // dispatcher, screenshot worker and retries
    | Delete(id: Id, now: Time)
    | Crash(now: Time)

  const INITIAL := System(Monitor.INITIAL, OutboxRuns.INITIAL, map[])

  datatype Recorded = Recorded(endpoint: Id, snap: Row, outcome: Outcome)

  predicate IsRecord(step: Monitor.Step) {
    step.RecordScheduled? || step.RecordManual?
  }

  predicate IsWatch(step: Monitor.Step) {
    !IsRecord(step) && !step.Delete? && !step.Crash?
  }

  predicate IsDelivery(step: OutboxRuns.Step) {
    !step.Record? && !step.DeleteEndpoint? && !step.Crash?
  }

  /** What the record of a ping decides. */
  function Decision(w: Monitor.World, step: Monitor.Step): Recorded
    requires match step
             case RecordScheduled(id, _, _) => id in w.batch
             case RecordManual(ticket, _, _) => ticket in w.manual
             case _ => false
  {
    match step
    case RecordScheduled(id, result, _) => Recorded(id, w.batch[id], Process(w.batch[id], result, true))
    case RecordManual(ticket, result, _) =>
      var ping := w.manual[ticket];
      Recorded(ping.id, ping.snap, Process(ping.snap, result, ping.snap.active))
  }

  function Inserts(d: Recorded, ids: FreshIds, now: Time): OutboxRuns.Step {
    OutboxRuns.Record(d.endpoint, ids, d.outcome.matched, Notifies(d.snap, d.outcome), d.snap.screenshotOnMatch, now)
  }

  ghost predicate Enabled(s: System, step: Step) {
    match step
    case Watch(m) => IsWatch(m) && Monitor.Enabled(s.monitor, m)
    case Ping(m, ids) =>
      && IsRecord(m) && Monitor.Enabled(s.monitor, m)
      && OutboxRuns.Enabled(s.outbox, Inserts(Decision(s.monitor, m), ids, m.now))
    case Deliver(o) => IsDelivery(o) && OutboxRuns.Enabled(s.outbox, o)
    case Delete(id, now) =>
      Monitor.Enabled(s.monitor, Monitor.Delete(id, now)) && OutboxRuns.Enabled(s.outbox, OutboxRuns.DeleteEndpoint(id, now))
    case Crash(now) =>
      Monitor.Enabled(s.monitor, Monitor.Crash(now)) && OutboxRuns.Enabled(s.outbox, OutboxRuns.Crash(now))
  }

  function Alerts(s: System, id: Id): set<Id> {
    if id in s.alerts then s.alerts[id] else {}
  }

  /** The record of a ping of a deleted endpoint changes no table. */
  function AfterPing(s: System, m: Monitor.Step, ids: FreshIds): System
    requires Enabled(s, Ping(m, ids))
  {
    var d := Decision(s.monitor, m);
    var recorded := s.(monitor := Monitor.Next(s.monitor, m));
    if d.endpoint !in s.monitor.rows then recorded
    else recorded.(outbox := OutboxRuns.Next(s.outbox, Inserts(d, ids, m.now)),
                   alerts := if NotifiesOnce(d.snap, d.outcome)
                             then s.alerts[d.endpoint := Alerts(s, d.endpoint) + {ids.event}] else s.alerts)
  }

  function Next(s: System, step: Step): System
    requires Enabled(s, step)
  {
    match step
    case Watch(m) => s.(monitor := Monitor.Next(s.monitor, m))
    case Ping(m, ids) => AfterPing(s, m, ids)
    case Deliver(o) => s.(outbox := OutboxRuns.Next(s.outbox, o))
    case Delete(id, now) =>
      s.(monitor := Monitor.Next(s.monitor, Monitor.Delete(id, now)),
         outbox := OutboxRuns.Next(s.outbox, OutboxRuns.DeleteEndpoint(id, now)))
    case Crash(now) =>
      s.(monitor := Monitor.Next(s.monitor, Monitor.Crash(now)),
         outbox := OutboxRuns.Next(s.outbox, OutboxRuns.Crash(now)))
  }

  ghost predicate IsRun(s: System, steps: seq<Step>)
    decreases |steps|
  {
    steps == [] || (Enabled(s, steps[0]) && IsRun(Next(s, steps[0]), steps[1..]))
  }

  ghost function Final(s: System, steps: seq<Step>): System
    requires IsRun(s, steps)
    decreases |steps|
  {
    if steps == [] then s else Final(Next(s, steps[0]), steps[1..])
  }

  // ---------------------------------------------------------------- both halves keep their invariants

  ghost predicate MonitorOk(s: System, id: Id) {
    Monitor.RowsOk(s.monitor) && Monitor.WithinBudget(s.monitor, id)
  }

  ghost predicate OutboxOk(s: System) {
    OutboxRuns.DispatcherOk(s.outbox) && forall e :: OutboxRuns.EventOk(s.outbox, e)
  }

  /** The alerts of an endpoint are as many as its notify-once records; those still stored are events of it. */
  ghost predicate AlertsOk(s: System, id: Id) {
    && Alerts(s, id) <= s.outbox.used
    && AlertsNamed(s, id)
    && |Alerts(s, id)| == Monitor.Raised(s.monitor, id)
  }

  ghost predicate AlertsNamed(s: System, id: Id) {
    forall e :: e in Alerts(s, id) && e in s.outbox.tables.events ==> s.outbox.tables.events[e].endpoint == id
  }

  lemma MonitorStep(w: Monitor.World, m: Monitor.Step, id: Id)
    requires Monitor.RowsOk(w) && Monitor.WithinBudget(w, id) && Monitor.Enabled(w, m)
    ensures Monitor.RowsOk(Monitor.Next(w, m)) && Monitor.WithinBudget(Monitor.Next(w, m), id)
  {
    Monitor.StepKeepsRowsOk(w, m);
    Monitor.StepKeepsBudget(w, m, id);
  }

  lemma OutboxStep(w: OutboxRuns.World, o: OutboxRuns.Step)
    requires OutboxRuns.DispatcherOk(w) && OutboxRuns.Enabled(w, o) && forall e :: OutboxRuns.EventOk(w, e)
    ensures OutboxRuns.DispatcherOk(OutboxRuns.Next(w, o)) && forall e :: OutboxRuns.EventOk(OutboxRuns.Next(w, o), e)
  {
    OutboxRuns.StepKeepsDispatcher(w, o);
    forall e ensures OutboxRuns.EventOk(OutboxRuns.Next(w, o), e) {
      OutboxRuns.StepKeepsEvent(w, o, e);
    }
  }

  lemma StepKeepsHalves(s: System, step: Step, id: Id)
    requires MonitorOk(s, id) && OutboxOk(s) && Enabled(s, step)
    ensures MonitorOk(Next(s, step), id) && OutboxOk(Next(s, step))
  {
    hide Monitor.Next, OutboxRuns.Enabled, OutboxRuns.Next, Monitor.RowsOk, Monitor.WithinBudget, OutboxRuns.DispatcherOk, OutboxRuns.EventOk, Decision;
    match step {
      case Watch(m) => MonitorStep(s.monitor, m, id);
      case Ping(m, ids) =>
        MonitorStep(s.monitor, m, id);
        OutboxStep(s.outbox, Inserts(Decision(s.monitor, m), ids, m.now));
      case Deliver(o) => OutboxStep(s.outbox, o);
      case Delete(at, now) =>
        MonitorStep(s.monitor, Monitor.Delete(at, now), id);
        OutboxStep(s.outbox, OutboxRuns.DeleteEndpoint(at, now));
      case Crash(now) =>
        MonitorStep(s.monitor, Monitor.Crash(now), id);
        OutboxStep(s.outbox, OutboxRuns.Crash(now));
    }
  }

  // ---------------------------------------------------------------- alerts are counted where they are raised

  lemma QuietMonitor(w: Monitor.World, m: Monitor.Step)
    requires Monitor.Enabled(w, m) && !IsRecord(m)
    ensures var past := Monitor.Next(w, m).past;
            past.scheduledOnce == w.past.scheduledOnce && past.manualOnce == w.past.manualOnce
  {
  }

  lemma UsedGrows(w: OutboxRuns.World, o: OutboxRuns.Step)
    requires OutboxRuns.Enabled(w, o)
    ensures OutboxRuns.Next(w, o).used == if o.Record? then w.used + {o.ids.check, o.ids.event, o.ids.attempt} else w.used
  {
  }

  /** No step gives a drawn identifier to another event, or an event to another endpoint. */
  lemma EventsKeepEndpoint(w: OutboxRuns.World, o: OutboxRuns.Step, e: Id)
    requires OutboxRuns.Enabled(w, o) && e in w.used
    ensures var events := OutboxRuns.Next(w, o).tables.events;
            e in events ==> e in w.tables.events && events[e].endpoint == w.tables.events[e].endpoint
  {
    if !OutboxRuns.IsDispatch(o) {
      OutboxRuns.QuietStep(w, o);
    }
  }

  lemma OutboxKeepsNames(s: System, o: OutboxRuns.Step, id: Id)
    requires OutboxRuns.Enabled(s.outbox, o) && AlertsNamed(s, id) && Alerts(s, id) <= s.outbox.used
    ensures AlertsNamed(s.(outbox := OutboxRuns.Next(s.outbox, o)), id)
  {
    forall e | e in Alerts(s, id) && e in OutboxRuns.Next(s.outbox, o).tables.events
      ensures OutboxRuns.Next(s.outbox, o).tables.events[e].endpoint == id
    {
      EventsKeepEndpoint(s.outbox, o, e);
    }
  }

  lemma RecordCounts(w: Monitor.World, m: Monitor.Step, id: Id)
    requires Monitor.Enabled(w, m) && IsRecord(m)
    ensures var d := Decision(w, m);
            Monitor.Raised(Monitor.Next(w, m), id)
            == Monitor.Raised(w, id) + if d.endpoint == id && id in w.rows && NotifiesOnce(d.snap, d.outcome) then 1 else 0
  {
    var d := Decision(w, m);
    if d.endpoint in w.rows {
      match m {
        case RecordScheduled(at, result, now) =>
          Monitor.CommitCounts(w.(batch := w.batch - {at}), at, d.snap, result, d.outcome, false, now, id);
        case RecordManual(ticket, result, now) =>
          Monitor.CommitCounts(w.(manual := w.manual - {ticket}), d.endpoint, d.snap, result, d.outcome, true, now, id);
      }
    }
  }

  /** A new alert is one more drawn identifier, and names its endpoint. */
  lemma AlertAdded(s: System, d: Recorded, ids: FreshIds, now: Time, id: Id)
    requires OutboxRuns.Enabled(s.outbox, Inserts(d, ids, now)) && Alerts(s, id) <= s.outbox.used && AlertsNamed(s, id)
    requires NotifiesOnce(d.snap, d.outcome)
    ensures var o := OutboxRuns.Next(s.outbox, Inserts(d, ids, now));
            && ids.event !in Alerts(s, id) && ids.event in o.used && Alerts(s, id) <= o.used
            && ids.event in o.tables.events && o.tables.events[ids.event].endpoint == d.endpoint
            && AlertsNamed(s.(outbox := o), id)
  {
    UsedGrows(s.outbox, Inserts(d, ids, now));
    OutboxKeepsNames(s, Inserts(d, ids, now), id);
    assert ids.event !in s.outbox.used;
  }

  lemma AlertsGrow(s: System, s': System, endpoint: Id, event: Id, id: Id)
    requires AlertsOk(s, id) && event !in Alerts(s, id)
    requires s'.alerts == s.alerts[endpoint := Alerts(s, endpoint) + {event}]
    requires Alerts(s, id) <= s'.outbox.used && event in s'.outbox.used
    requires AlertsNamed(s.(outbox := s'.outbox), id)
    requires event in s'.outbox.tables.events && s'.outbox.tables.events[event].endpoint == endpoint
    requires Monitor.Raised(s'.monitor, id) == Monitor.Raised(s.monitor, id) + if endpoint == id then 1 else 0
    ensures AlertsOk(s', id)
  {
    hide Monitor.Raised;
    if endpoint == id {
      assert Alerts(s', id) == Alerts(s, id) + {event};
    } else {
      assert Alerts(s', id) == Alerts(s, id);
    }
  }

  lemma PingKeepsAlerts(s: System, m: Monitor.Step, ids: FreshIds, id: Id)
    requires AlertsOk(s, id) && Enabled(s, Ping(m, ids))
    ensures AlertsOk(AfterPing(s, m, ids), id)
  {
    hide Monitor.Next, OutboxRuns.Next, OutboxRuns.Enabled, NotifiesOnce, Process, Monitor.Raised;
    var d := Decision(s.monitor, m);
    RecordCounts(s.monitor, m, id);
    if d.endpoint in s.monitor.rows {
      if NotifiesOnce(d.snap, d.outcome) {
        AlertAdded(s, d, ids, m.now, id);
        AlertsGrow(s, AfterPing(s, m, ids), d.endpoint, ids.event, id);
      } else {
        UsedGrows(s.outbox, Inserts(d, ids, m.now));
        OutboxKeepsNames(s, Inserts(d, ids, m.now), id);
      }
    }
  }

  lemma StepKeepsAlerts(s: System, step: Step, id: Id)
    requires AlertsOk(s, id) && Enabled(s, step)
    ensures AlertsOk(Next(s, step), id)
  {
    hide Monitor.Enabled, Monitor.Next, OutboxRuns.Next, Decision;
    match step {
      case Watch(m) => QuietMonitor(s.monitor, m);
      case Ping(m, ids) => PingKeepsAlerts(s, m, ids, id);
      case Deliver(o) =>
        UsedGrows(s.outbox, o);
        OutboxKeepsNames(s, o, id);
      case Delete(at, now) =>
        QuietMonitor(s.monitor, Monitor.Delete(at, now));
        UsedGrows(s.outbox, OutboxRuns.DeleteEndpoint(at, now));
        OutboxKeepsNames(s, OutboxRuns.DeleteEndpoint(at, now), id);
      case Crash(now) =>
        QuietMonitor(s.monitor, Monitor.Crash(now));
        UsedGrows(s.outbox, OutboxRuns.Crash(now));
        OutboxKeepsNames(s, OutboxRuns.Crash(now), id);
    }
  }

  lemma {:induction false} RunKeepsAll(s: System, steps: seq<Step>, id: Id)
    requires MonitorOk(s, id) && OutboxOk(s) && AlertsOk(s, id) && IsRun(s, steps)
    ensures MonitorOk(Final(s, steps), id) && OutboxOk(Final(s, steps)) && AlertsOk(Final(s, steps), id)
    decreases |steps|
  {
    hide Enabled, Next, MonitorOk, OutboxOk, AlertsOk;
    if steps != [] {
      StepKeepsHalves(s, steps[0], id);
      StepKeepsAlerts(s, steps[0], id);
      RunKeepsAll(Next(s, steps[0]), steps[1..], id);
    }
  }

  // ---------------------------------------------------------------- what reaches the user

  ghost function Total(counters: map<Id, nat>, ids: set<Id>): nat {
    if ids == {} then 0 else var id :| id in ids; Count(counters, id) + Total(counters, ids - {id})
  }

  lemma {:induction false} TotalSplits(counters: map<Id, nat>, ids: set<Id>, id: Id)
    requires id in ids
    ensures Total(counters, ids) == Count(counters, id) + Total(counters, ids - {id})
    decreases |ids|
  {
    var first :| first in ids && Total(counters, ids) == Count(counters, first) + Total(counters, ids - {first});
    if first != id {
      TotalSplits(counters, ids - {first}, id);
      TotalSplits(counters, ids - {id}, first);
      assert ids - {first} - {id} == ids - {id} - {first};
    }
  }

  lemma {:induction false} TotalAtMost(counters: map<Id, nat>, others: map<Id, nat>, ids: set<Id>)
    requires forall id :: id in ids ==> Count(counters, id) <= 1 + Count(others, id)
    ensures Total(counters, ids) <= |ids| + Total(others, ids)
    decreases |ids|
  {
    if ids != {} {
      var id :| id in ids;
      TotalSplits(counters, ids, id);
      TotalSplits(others, ids, id);
      TotalAtMost(counters, others, ids - {id});
      assert |ids - {id}| == |ids| - 1;
    }
  }

  /** From an empty database, over any interleaving of edits, sweeps, scheduled and manual
      pings, deliveries, retries, deletions and crashes: the alerts of a notify-once
      endpoint are delivered at most once per activation, plus once for each late manual
      event and once for each delivery whose mark was lost. While the endpoint is still
      active or being pinged, one of its activations has not been spent. */
  lemma AlertsDelivered(steps: seq<Step>, id: Id)
    requires IsRun(INITIAL, steps)
    ensures AlertsNamed(Final(INITIAL, steps), id)
    ensures var s := Final(INITIAL, steps);
            var pending := if Monitor.ActiveOrInFlight(s.monitor, id) then 1 else 0;
            Total(s.outbox.past.deliveries, Alerts(s, id)) + pending
            <= Count(s.monitor.past.activations, id) + Count(s.monitor.past.late, id)
               + Total(s.outbox.past.lostDeliveries, Alerts(s, id))
  {
    RunKeepsAll(INITIAL, steps, id);
    var s := Final(INITIAL, steps);
    forall e | e in Alerts(s, id)
      ensures Count(s.outbox.past.deliveries, e) <= 1 + Count(s.outbox.past.lostDeliveries, e)
    {
      assert OutboxRuns.EventOk(s.outbox, e);
    }
    TotalAtMost(s.outbox.past.deliveries, s.outbox.past.lostDeliveries, Alerts(s, id));
  }
}
