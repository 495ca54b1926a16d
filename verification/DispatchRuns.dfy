/** A pending notification is not held up for long, over the runs of the outboxes: every
    batch that passes it over holds twenty older events, and each of those uses up one of
    its tries, unless its mark is lost or the process stops first. */
module DispatchRuns {
  import opened Common
  import opened Outbox
  import opened OutboxRuns
  import opened OutboxProgress

  /** `x` is pending and not in the batch being sent; identifiers, rows and histories agree. */
  ghost predicate Waits(w: World, x: Id) {
    && x in w.tables.events && w.tables.events[x].status == Pending && x !in w.queue
    && DispatcherOk(w) && forall e :: EventOk(w, e)
  }

  /** The step does not delete the endpoint of `x`. */
  predicate Spares(w: World, s: Step, x: Id)
    requires x in w.tables.events
  {
    s.DeleteEndpoint? ==> s.endpoint != w.tables.events[x].endpoint
  }

  predicate Picks(s: Step, x: Id) {
    s.SelectEvents? && x in s.picked
  }

  function Ahead(w: World, x: Id, since: Time): set<Id> {
    Older(w.tables.events, x, since)
  }

  /** Those of the batch that are still to be sent. */
  function Unsent(w: World, x: Id, since: Time): set<Id> {
    set id | id in w.queue && id in Ahead(w, x, since)
  }

  ghost function Left(w: World, x: Id, since: Time): nat {
    TotalLeft(w.tables.events, Ahead(w, x, since))
  }

  /** Tries a step may waste or add: a lost mark, a batch dropped by a crash, and an event
      recorded at the very time of `x`. */
  function Waste(w: World, s: Step, since: Time): nat {
    match s
    case Record(_, _, _, notifies, _, now) => if notifies && now <= since then MAX_ATTEMPTS else 0
    case Send(_, marked, _) => if marked then 0 else 1
    case Crash(_) => |w.queue|
    case _ => 0
  }

  // ---------------------------------------------------------------- one step

  lemma StepKeepsWaits(w: World, s: Step, x: Id)
    requires Waits(w, x) && Enabled(w, s) && Spares(w, s, x) && !Picks(s, x)
    ensures Waits(Next(w, s), x) && Next(w, s).tables.events[x] == w.tables.events[x]
  {
    StepKeepsDispatcher(w, s);
    forall e ensures EventOk(Next(w, s), e) { StepKeepsEvent(w, s, e); }
    assert EventOk(w, x);
    StepKeepsRow(w, s, x);
  }

  lemma StepKeepsRow(w: World, s: Step, x: Id)
    requires x in w.tables.events && x in w.used && x !in w.queue && Enabled(w, s) && Spares(w, s, x) && !Picks(s, x)
    ensures var w' := Next(w, s);
            x in w'.tables.events && w'.tables.events[x] == w.tables.events[x] && x !in w'.queue
  {
    if !IsDispatch(s) {
      QuietStep(w, s);
    }
  }

  /** What the batches take from the tries left: twenty for each selection that passes `x` over. */
  ghost predicate Costs(w: World, s: Step, x: Id, since: Time)
    requires Enabled(w, s)
  {
    var w' := Next(w, s);
    Left(w', x, since) + |Unsent(w, x, since)| + (if s.SelectEvents? then DISPATCH_LIMIT else 0)
    <= Left(w, x, since) + |Unsent(w', x, since)| + Waste(w, s, since)
  }

  lemma SelectCosts(w: World, s: Step, x: Id, since: Time)
    requires Waits(w, x) && since == w.tables.events[x].createdAt && Enabled(w, s) && s.SelectEvents? && !Picks(s, x)
    ensures Costs(w, s, x, since)
  {
    var w' := Next(w, s);
    assert IsDueEvent(w.tables.events[x], s.now);
    assert |s.picked| == DISPATCH_LIMIT;
    DistinctSize(s.picked);
    forall id | id in s.picked ensures id in Ahead(w, x, since) {
      assert IsDueEvent(w.tables.events[id], s.now) && EventOk(w, id);
    }
    assert Unsent(w', x, since) == Elements(s.picked);
    assert Unsent(w, x, since) == {};
  }

  /** A stored mark takes a try from its event, if it was ahead. */
  lemma MarkTakes(events: Events, id: Id, delivered: bool, now: Time, x: Id, since: Time)
    requires id in events ==> TriesLeft(events[id]) > 0
    ensures var older, events' := Older(events, x, since), MarkEvent(events, id, delivered, now);
            TotalLeft(events', Older(events', x, since)) + (if id in older then 1 else 0) <= TotalLeft(events, older)
  {
    var older, events' := Older(events, x, since), MarkEvent(events, id, delivered, now);
    TotalDrops(events, older, events', Older(events', x, since), if id in older then {id} else {});
  }

  /** What is still to be sent after the first of the batch was. */
  lemma UnsentShrinks(w: World, w': World, x: Id, since: Time)
    requires w.queue != [] && w'.queue == w.queue[1..]
    requires forall id :: id in w'.queue && id in Ahead(w, x, since) ==> id in Ahead(w', x, since)
    ensures |Unsent(w, x, since)| <= |Unsent(w', x, since)| + if w.queue[0] in Ahead(w, x, since) then 1 else 0
  {
    hide Ahead;
    var id := w.queue[0];
    assert forall e :: e in w.queue ==> e == id || e in w'.queue;
    var first := if id in Ahead(w, x, since) then {id} else {};
    assert Unsent(w, x, since) <= Unsent(w', x, since) + first;
    SubsetSize(Unsent(w, x, since), Unsent(w', x, since) + first);
  }

  lemma MarkedCosts(w: World, s: Step, x: Id, since: Time)
    requires Waits(w, x) && Enabled(w, s) && s.Send? && s.marked
    ensures Costs(w, s, x, since)
  {
    var w', id := Next(w, s), w.queue[0];
    assert EventOk(w, id) && id in w.queue && id !in w'.queue;
    MarkTakes(w.tables.events, id, s.delivered, s.now, x, since);
    assert w'.tables.events == MarkEvent(w.tables.events, id, s.delivered, s.now);
    UnsentShrinks(w, w', x, since);
  }

  lemma LostCosts(w: World, s: Step, x: Id, since: Time)
    requires Waits(w, x) && Enabled(w, s) && s.Send? && !s.marked
    ensures Costs(w, s, x, since)
  {
    UnsentShrinks(w, Next(w, s), x, since);
  }

  /** Deleted events take their tries with them, those still to be sent at least one each. */
  lemma DeletedTake(events: Events, events': Events, unsent: set<Id>, x: Id, since: Time)
    requires unsent <= Older(events, x, since)
    requires forall id :: id in events' ==> id in events && events'[id] == events[id]
    ensures var older' := Older(events', x, since);
            TotalLeft(events', older') + |unsent - older'| <= TotalLeft(events, Older(events, x, since))
  {
    TotalDrops(events, Older(events, x, since), events', Older(events', x, since), unsent - Older(events', x, since));
  }

  lemma KeptAndGone(all: set<Id>, ahead: set<Id>, kept: set<Id>)
    requires forall id :: id in all && id in ahead ==> id in kept
    ensures |all| <= |kept| + |all - ahead|
  {
    assert all == (all * ahead) + (all - ahead);
    assert all * ahead <= kept;
    SubsetSize(all * ahead, kept);
  }

  lemma DeleteCosts(w: World, s: Step, x: Id, since: Time)
    requires Waits(w, x) && Enabled(w, s) && s.DeleteEndpoint?
    ensures Costs(w, s, x, since)
  {
    var w' := Next(w, s);
    QuietStep(w, s);
    assert w'.queue == w.queue;
    assert forall id :: id in w'.tables.events ==> id in w.tables.events && w'.tables.events[id] == w.tables.events[id];
    hide Effect, Enabled, EventOk, Waits, WithoutEndpoint, TriesLeft;
    var unsent := Unsent(w, x, since);
    DeletedTake(w.tables.events, w'.tables.events, unsent, x, since);
    KeptAndGone(unsent, Ahead(w', x, since), Unsent(w', x, since));
  }

  /** A new event adds its five tries if it counts as older. */
  lemma EventAdds(events: Events, id: Id, event: Event, x: Id, since: Time)
    requires id !in events && event.status == Pending && event.attempts == 0
    ensures var events' := events[id := event];
            && (forall e :: e in events ==> (e in Older(events', x, since) <==> e in Older(events, x, since)))
            && TotalLeft(events', Older(events', x, since))
               <= TotalLeft(events, Older(events, x, since)) + if event.createdAt <= since then MAX_ATTEMPTS else 0
  {
    var events' := events[id := event];
    var before, after := Older(events, x, since), Older(events', x, since);
    assert after - {id} == before;
    if id in after {
      TotalSplits(events', after, id);
    } else {
      assert after == before;
    }
    TotalDrops(events, before, events', before, {});
  }

  lemma RecordCosts(w: World, s: Step, x: Id, since: Time)
    requires Waits(w, x) && Enabled(w, s) && s.Record?
    ensures Costs(w, s, x, since)
  {
    var w', id := Next(w, s), s.ids.event;
    assert EventOk(w, id) && id !in w.tables.events;
    forall e | e in w.queue ensures e != id { assert EventOk(w, e); }
    if s.notifies {
      EventAdds(w.tables.events, id, w'.tables.events[id], x, since);
    }
    hide Older, EventOk, TotalLeft, TriesLeft;
    assert w'.queue == w.queue;
    assert Unsent(w', x, since) == Unsent(w, x, since);
  }

  lemma QuietCosts(w: World, s: Step, x: Id, since: Time)
    requires Waits(w, x) && Enabled(w, s) && !IsDispatch(s) && !s.DeleteEndpoint?
    ensures Costs(w, s, x, since)
  {
    var w' := Next(w, s);
    QuietStep(w, s);
    if s.Crash? {
      assert Unsent(w', x, since) == {};
      assert Unsent(w, x, since) <= Elements(w.queue);
      DistinctSize(w.queue);
      SubsetSize(Unsent(w, x, since), Elements(w.queue));
    }
  }

  lemma StepCosts(w: World, s: Step, x: Id)
    requires Waits(w, x) && Enabled(w, s) && !Picks(s, x)
    ensures Costs(w, s, x, w.tables.events[x].createdAt)
  {
    var since := w.tables.events[x].createdAt;
    hide Costs, Enabled, Waits;
    if s.SelectEvents? {
      SelectCosts(w, s, x, since);
    } else if s.Send? {
      if s.marked { MarkedCosts(w, s, x, since); } else { LostCosts(w, s, x, since); }
    } else if s.Record? {
      RecordCosts(w, s, x, since);
    } else if s.DeleteEndpoint? {
      DeleteCosts(w, s, x, since);
    } else {
      QuietCosts(w, s, x, since);
    }
  }

  // ---------------------------------------------------------------- whole runs

  /** The endpoint of `x` is not deleted before `x` is picked. */
  ghost predicate Spared(w: World, steps: seq<Step>, x: Id)
    requires IsRun(w, steps)
    decreases |steps|
  {
    steps == [] || Picks(steps[0], x) ||
    (x in w.tables.events && Spares(w, steps[0], x) && Spared(Next(w, steps[0]), steps[1..], x))
  }

  /** What the steps waste before `x` is picked. */
  ghost function Wasted(w: World, steps: seq<Step>, x: Id, since: Time): nat
    requires IsRun(w, steps)
    decreases |steps|
  {
    if steps == [] || Picks(steps[0], x) then 0
    else Waste(w, steps[0], since) + Wasted(Next(w, steps[0]), steps[1..], x, since)
  }

  function Batches(steps: seq<Step>): nat {
    if steps == [] then 0 else (if steps[0].SelectEvents? then 1 else 0) + Batches(steps[1..])
  }

  /** Every event still to be sent has a try left for it. */
  lemma UnsentIsLeft(w: World, x: Id, since: Time)
    ensures |Unsent(w, x, since)| <= Left(w, x, since)
  {
    TotalDrops(w.tables.events, Ahead(w, x, since), w.tables.events, {}, Unsent(w, x, since));
  }

  lemma {:induction false} BatchesCost(w: World, steps: seq<Step>, x: Id, since: Time)
    requires Waits(w, x) && w.tables.events[x].createdAt == since && IsRun(w, steps) && Spared(w, steps, x)
    requires forall i :: 0 <= i < |steps| ==> !Picks(steps[i], x)
    ensures DISPATCH_LIMIT * Batches(steps) + |Unsent(w, x, since)| <= Left(w, x, since) + Wasted(w, steps, x, since)
    decreases |steps|
  {
    UnsentIsLeft(w, x, since);
    if steps != [] {
      hide Enabled, Effect, Next, Left, Unsent, Waste, Spares;
      assert !Picks(steps[0], x);
      assert forall i :: 0 <= i < |steps[1..]| ==> steps[1..][i] == steps[i + 1];
      StepKeepsWaits(w, steps[0], x);
      StepCosts(w, steps[0], x);
      BatchesCost(Next(w, steps[0]), steps[1..], x, since);
    }
  }

  /** After any run from an empty database, a pending event x that is not being sent yet,
      with n unsettled events ahead of it: in any interleaving that spares its endpoint it
      is in one of the next (5 * n + wasted) / 20 + 1 batches, where only lost marks, crashes
      and events recorded at the time of x count as wasted. */
  lemma FirstTryInTime(before: seq<Step>, steps: seq<Step>, x: Id)
    requires IsRun(INITIAL, before)
    requires var w := Final(INITIAL, before);
             && x in w.tables.events && w.tables.events[x].status == Pending && x !in w.queue
             && IsRun(w, steps) && Spared(w, steps, x)
             && var since := w.tables.events[x].createdAt;
                Batches(steps) >= (MAX_ATTEMPTS * |Ahead(w, x, since)| + Wasted(w, steps, x, since)) / DISPATCH_LIMIT + 1
    ensures exists i :: 0 <= i < |steps| && Picks(steps[i], x)
  {
    hide Effect, Next, Enabled, Wasted, Spared, EventOk;
    var w := Final(INITIAL, before);
    var since := w.tables.events[x].createdAt;
    ReachableWaits(before, x);
    if forall i :: 0 <= i < |steps| ==> !Picks(steps[i], x) {
      BatchesCost(w, steps, x, since);
      TotalBounded(w.tables.events, Ahead(w, x, since));
    }
  }

  lemma {:induction false} RunKeepsDispatcher(w: World, steps: seq<Step>)
    requires DispatcherOk(w) && IsRun(w, steps)
    ensures DispatcherOk(Final(w, steps))
    decreases |steps|
  {
    if steps != [] {
      StepKeepsDispatcher(w, steps[0]);
      RunKeepsDispatcher(Next(w, steps[0]), steps[1..]);
    }
  }

  lemma ReachableWaits(before: seq<Step>, x: Id)
    requires IsRun(INITIAL, before)
    requires var w := Final(INITIAL, before);
             x in w.tables.events && w.tables.events[x].status == Pending && x !in w.queue
    ensures Waits(Final(INITIAL, before), x)
  {
    RunKeepsDispatcher(INITIAL, before);
    forall e ensures EventOk(Final(INITIAL, before), e) { RunKeepsEvent(INITIAL, before, e); }
  }
}
