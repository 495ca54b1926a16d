/** A pending notification is not held up for long (internal/scheduler/scheduler.go,
    DispatchNotificationsOnce): every dispatch round that passes it over spends at
    least one try on each of twenty older events, and those have at most five each. */
module OutboxProgress {
  import opened Common
  import opened Outbox
  import OutboxRuns

  // One round in which every mark is stored: the batch, and for each event of it
  // whether the send succeeded and when it was marked.
  datatype Round = Round(now: Time, picked: seq<Id>, delivered: set<Id>, markedAt: Time)

  type Events = map<Id, Event>

  ghost predicate CanRun(events: Events, round: Round) {
    IsEventBatch(events, round.picked, DISPATCH_LIMIT, round.now)
  }

  function AfterRound(events: Events, round: Round): Events {
    map id | id in events ::
      if id !in round.picked then events[id]
      else if id in round.delivered then MarkedSent(events[id], round.markedAt)
      else MarkedFailed(events[id], round.markedAt)
  }

  /** A round is worked off one mark at a time. */
  lemma RoundGrows(events: Events, round: Round, i: nat)
    requires i < |round.picked| && Distinct(round.picked)
    ensures AfterRound(events, round.(picked := round.picked[..i + 1]))
         == MarkEvent(AfterRound(events, round.(picked := round.picked[..i])), round.picked[i],
                      round.picked[i] in round.delivered, round.markedAt)
  {
    assert round.picked[..i + 1] == round.picked[..i] + [round.picked[i]];
  }

  /** How many more tries an event may take. */
  function TriesLeft(event: Event): nat {
    if event.status == Sent || event.attempts >= MAX_ATTEMPTS then 0 else MAX_ATTEMPTS - event.attempts
  }

  ghost function TotalLeft(events: Events, ids: set<Id>): nat
    requires ids <= events.Keys
  {
    if ids == {} then 0 else var id :| id in ids; TriesLeft(events[id]) + TotalLeft(events, ids - {id})
  }

  lemma {:induction false} TotalSplits(events: Events, ids: set<Id>, id: Id)
    requires ids <= events.Keys && id in ids
    ensures TotalLeft(events, ids) == TriesLeft(events[id]) + TotalLeft(events, ids - {id})
    decreases |ids|
  {
    var first :| first in ids && TotalLeft(events, ids) == TriesLeft(events[first]) + TotalLeft(events, ids - {first});
    if first != id {
      TotalSplits(events, ids - {first}, id);
      TotalSplits(events, ids - {id}, first);
      assert ids - {first} - {id} == ids - {id} - {first};
    }
  }

  /** Fewer events, none with more tries left, and `spent` of them with fewer: the total drops by |spent|. */
  lemma {:induction false} TotalDrops(events: Events, ids: set<Id>, events': Events, ids': set<Id>, spent: set<Id>)
    requires ids <= events.Keys && ids' <= events'.Keys && ids' <= ids && spent <= ids
    requires forall id :: id in ids' ==> TriesLeft(events'[id]) <= TriesLeft(events[id])
    requires forall id :: id in spent ==> TriesLeft(events[id]) >= 1
    requires forall id :: id in spent && id in ids' ==> TriesLeft(events'[id]) < TriesLeft(events[id])
    ensures TotalLeft(events', ids') + |spent| <= TotalLeft(events, ids)
    decreases |ids|
  {
    if ids == {} {
      assert ids' == {} && spent == {};
    } else {
      var id :| id in ids;
      TotalSplits(events, ids, id);
      if id in ids' { TotalSplits(events', ids', id); } else { assert ids' - {id} == ids'; }
      assert |spent| == |spent - {id}| + if id in spent then 1 else 0;
      TotalDrops(events, ids - {id}, events', ids' - {id}, spent - {id});
    }
  }

  lemma {:induction false} TotalBounded(events: Events, ids: set<Id>)
    requires ids <= events.Keys
    ensures TotalLeft(events, ids) <= MAX_ATTEMPTS * |ids|
    decreases |ids|
  {
    if ids != {} {
      var id :| id in ids;
      TotalSplits(events, ids, id);
      TotalBounded(events, ids - {id});
      assert |ids - {id}| == |ids| - 1;
    }
  }

  /** The unsettled events other than `x` created at or before `since`. */
  function Older(events: Events, x: Id, since: Time): set<Id> {
    set id | id in events && id != x && events[id].createdAt <= since && TriesLeft(events[id]) > 0
  }

  /** A pending event was never tried. */
  predicate PendingUntried(events: Events) {
    forall id :: id in events && events[id].status == Pending ==> events[id].attempts == 0
  }

  /** Holds of every state the outboxes reach from an empty database. */
  lemma ReachablePendingUntried(steps: seq<OutboxRuns.Step>)
    requires OutboxRuns.IsRun(OutboxRuns.INITIAL, steps)
    ensures PendingUntried(OutboxRuns.Final(OutboxRuns.INITIAL, steps).tables.events)
  {
    var w := OutboxRuns.Final(OutboxRuns.INITIAL, steps);
    forall id | id in w.tables.events && w.tables.events[id].status == Pending
      ensures w.tables.events[id].attempts == 0
    {
      OutboxRuns.RunKeepsEvent(OutboxRuns.INITIAL, steps, id);
    }
  }

  lemma PassedOver(events: Events, round: Round, x: Id)
    requires CanRun(events, round) && PendingUntried(events)
    requires x in events && events[x].status == Pending && x !in round.picked
    ensures var after := AfterRound(events, round);
            && after[x] == events[x]
            && TotalLeft(after, Older(after, x, events[x].createdAt)) + DISPATCH_LIMIT
               <= TotalLeft(events, Older(events, x, events[x].createdAt))
  {
    var after := AfterRound(events, round);
    var older, older' := Older(events, x, events[x].createdAt), Older(after, x, events[x].createdAt);
    var spent := Elements(round.picked);
    DistinctSize(round.picked);
    assert IsDueEvent(events[x], round.now);
    forall id | id in spent ensures id in older && TriesLeft(after[id]) < TriesLeft(events[id]) {
      assert id in round.picked && IsDueEvent(events[id], round.now);
    }
    TotalDrops(events, older, after, older', spent);
  }

  /** Between two rounds: new events are younger than `x`, others may only be deleted. */
  ghost predicate Undisturbed(events: Events, events': Events, x: Id) {
    && x in events && x in events' && events'[x] == events[x]
    && forall id :: id in events' && events'[id].createdAt <= events[x].createdAt ==>
         id in events && events'[id] == events[id]
  }

  /** `tables[i]` holds the events just before `rounds[i]`. */
  ghost predicate IsSchedule(tables: seq<Events>, rounds: seq<Round>, x: Id) {
    && |tables| == |rounds|
    && (forall i :: 0 <= i < |rounds| ==> CanRun(tables[i], rounds[i]) && PendingUntried(tables[i]))
    && (forall i :: 0 < i < |rounds| && x !in rounds[i - 1].picked ==>
          Undisturbed(AfterRound(tables[i - 1], rounds[i - 1]), tables[i], x))
  }

  lemma ScheduleTail(tables: seq<Events>, rounds: seq<Round>, x: Id)
    requires IsSchedule(tables, rounds, x) && rounds != []
    ensures IsSchedule(tables[1..], rounds[1..], x)
  {
    var t, r := tables[1..], rounds[1..];
    assert forall i :: 0 <= i < |r| ==> t[i] == tables[i + 1] && r[i] == rounds[i + 1];
    assert forall i :: 0 < i < |r| ==> t[i - 1] == tables[i] && r[i - 1] == rounds[i];
  }

  lemma {:induction false} EveryRoundPasses(tables: seq<Events>, rounds: seq<Round>, x: Id)
    requires IsSchedule(tables, rounds, x) && rounds != []
    requires x in tables[0] && tables[0][x].status == Pending
    requires forall i :: 0 <= i < |rounds| ==> x !in rounds[i].picked
    ensures DISPATCH_LIMIT * |rounds| <= TotalLeft(tables[0], Older(tables[0], x, tables[0][x].createdAt))
    decreases |rounds|
  {
    hide AfterRound, IsEventBatch, TotalLeft;
    PassedOver(tables[0], rounds[0], x);
    if |rounds| > 1 {
      var after, since := AfterRound(tables[0], rounds[0]), tables[0][x].createdAt;
      assert Undisturbed(after, tables[1], x);
      TotalDrops(after, Older(after, x, since), tables[1], Older(tables[1], x, since), {});
      ScheduleTail(tables, rounds, x);
      assert forall i :: 0 <= i < |rounds[1..]| ==> rounds[1..][i] == rounds[i + 1];
      EveryRoundPasses(tables[1..], rounds[1..], x);
    }
  }

  /** A pending event with n older unsettled events is in the batch of one of the next n / 4 + 1 rounds. */
  lemma FirstTryComesSoon(tables: seq<Events>, rounds: seq<Round>, x: Id)
    requires IsSchedule(tables, rounds, x) && rounds != []
    requires x in tables[0] && tables[0][x].status == Pending
    requires |rounds| == |Older(tables[0], x, tables[0][x].createdAt)| / 4 + 1
    ensures exists i :: 0 <= i < |rounds| && x in rounds[i].picked
  {
    hide AfterRound, CanRun, IsEventBatch, TotalLeft;
    if forall i :: 0 <= i < |rounds| ==> x !in rounds[i].picked {
      EveryRoundPasses(tables, rounds, x);
      TotalBounded(tables[0], Older(tables[0], x, tables[0][x].createdAt));
    }
  }
}
