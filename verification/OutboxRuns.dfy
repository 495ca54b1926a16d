/** Whole runs of the two outboxes.

    One dispatcher walks a batch of due events, sending each and then marking it; one
    screenshot worker walks a batch of due attempts, claiming each before it captures.
    Between any two of their steps pings are recorded, endpoints deleted, retries read
    and written, and the process may stop. A mark can be lost: the send happened but
    its outcome was never stored. */
module OutboxRuns {
  import opened Common
  import opened Outbox

  type Ticket = nat

  // One stored outcome: when the event was selected, when it was marked, and how.
  datatype Try = Try(selectedAt: Time, markedAt: Time, delivered: bool)

  datatype World = World(
    tables: Tables,
    queue: seq<Id>,                // events of the current dispatch batch still to be sent
    selectedAt: Time,              // when that batch was selected
    shots: seq<Id>,                // attempts of the current screenshot batch still to be claimed
    capturing: Option<Id>,         // the attempt the worker has claimed and not finished
    retries: map<Ticket, Id>,      // retry requests between their read and their write
    clock: Time,
    used: set<Id>,                 // identifiers drawn so far
    past: History,                 // never read by the code
    shotPast: ShotHistory)         // never read by the code

  datatype History = History(
    tries: map<Id, seq<Try>>,      // stored send outcomes of each event
    sends: map<Id, nat>,           // send calls
    deliveries: map<Id, nat>,      // send calls that succeeded
    lost: map<Id, nat>,            // send calls whose outcome was never stored
    lostDeliveries: map<Id, nat>)  // those of them that succeeded

  datatype ShotHistory = ShotHistory(
    captures: map<Id, nat>,        // successful claims of each attempt
    retryWrites: map<Id, nat>)     // times a retry set an attempt back to pending

  datatype Step =
    | Record(endpoint: Id, ids: FreshIds, matched: bool, notifies: bool, shoots: bool, now: Time)
    | DeleteEndpoint(endpoint: Id, now: Time)
    | SelectEvents(picked: seq<Id>, now: Time)
    | Send(delivered: bool, marked: bool, now: Time)
    | SelectShots(picked: seq<Id>, limit: nat, now: Time)
    | Claim(now: Time)
    | FinishShot(status: AttemptStatus, marked: bool, now: Time)
    | ReadRetry(ticket: Ticket, id: Id, now: Time)
    | WriteRetry(ticket: Ticket, now: Time)
    | Crash(now: Time)

  const INITIAL := World(Tables(map[], map[], map[]), [], 0, [], None, map[], 0,
                         {}, History(map[], map[], map[], map[], map[]), ShotHistory(map[], map[]))

  function TriesOf(w: World, id: Id): seq<Try> {
    if id in w.past.tries then w.past.tries[id] else []
  }

  ghost predicate Enabled(w: World, s: Step) {
    && w.clock <= s.now
    && match s
       case Record(_, ids, _, _, _, _) => {ids.check, ids.event, ids.attempt} !! w.used
       case SelectEvents(picked, now) => w.queue == [] && IsEventBatch(w.tables.events, picked, DISPATCH_LIMIT, now)
       case Send(_, _, _) => w.queue != []
       case SelectShots(picked, limit, _) =>
         w.shots == [] && w.capturing.None? && IsAttemptBatch(w.tables, picked, limit)
       case Claim(_) => w.shots != [] && w.capturing.None?
       case FinishShot(status, _, _) => w.capturing.Some? && status != Waiting && status != Capturing
       case ReadRetry(ticket, id, _) =>
         && ticket !in w.retries
         && id in w.tables.attempts && w.tables.attempts[id].status == CaptureFailed
       case WriteRetry(ticket, _) => ticket in w.retries
       case _ => true
  }

  function AfterSend(w: World, delivered: bool, marked: bool, now: Time): World
    requires w.queue != []
  {
    var id := w.queue[0];
    var past := w.past.(sends := Bump(w.past.sends, id),
                        deliveries := if delivered then Bump(w.past.deliveries, id) else w.past.deliveries);
    if marked
    then w.(queue := w.queue[1..],
            tables := w.tables.(events := MarkEvent(w.tables.events, id, delivered, now)),
            past := past.(tries := w.past.tries[id := TriesOf(w, id) + [Try(w.selectedAt, now, delivered)]]))
    else w.(queue := w.queue[1..],
            past := past.(lost := Bump(w.past.lost, id),
                          lostDeliveries := if delivered then Bump(w.past.lostDeliveries, id)
                                            else w.past.lostDeliveries))
  }

  /** MarkScreenshotCapturing changes a row only while it is still pending. */
  function AfterClaim(w: World): World
    requires w.shots != []
  {
    var id := w.shots[0];
    var rest := w.(shots := w.shots[1..]);
    if id in w.tables.attempts && w.tables.attempts[id].status == Waiting
    then rest.(tables := w.tables.(attempts := MarkAttempt(w.tables.attempts, id, Capturing)),
               capturing := Some(id),
               shotPast := w.shotPast.(captures := Bump(w.shotPast.captures, id)))
    else rest
  }

  function Effect(w: World, s: Step): World
    requires Enabled(w, s)
  {
    match s
    case Record(endpoint, ids, matched, notifies, shoots, now) =>
      w.(tables := WithRecord(w.tables, endpoint, ids, matched, notifies, shoots, now),
         used := w.used + {ids.check, ids.event, ids.attempt})
    case DeleteEndpoint(endpoint, _) => w.(tables := WithoutEndpoint(w.tables, endpoint))
    case SelectEvents(picked, now) => w.(queue := picked, selectedAt := now)
    case Send(delivered, marked, now) => AfterSend(w, delivered, marked, now)
    case SelectShots(picked, _, _) => w.(shots := picked)
    case Claim(_) => AfterClaim(w)
    case FinishShot(status, marked, _) =>
      var done := w.(capturing := None);
      if marked
      then done.(tables := w.tables.(attempts := MarkAttempt(w.tables.attempts, w.capturing.value, status)))
      else done
    case ReadRetry(ticket, id, _) => w.(retries := w.retries[ticket := id])
    case WriteRetry(ticket, _) =>
      var id := w.retries[ticket];
      var done := w.(retries := w.retries - {ticket});
      if id !in w.tables.attempts then done
      else done.(tables := w.tables.(attempts := MarkAttempt(w.tables.attempts, id, Waiting)),
                 shotPast := w.shotPast.(retryWrites := Bump(w.shotPast.retryWrites, id)))
    case Crash(_) => w.(queue := [], shots := [], capturing := None, retries := map[])
  }

  function Next(w: World, s: Step): World
    requires Enabled(w, s)
  {
    Effect(w, s).(clock := s.now)
  }

  ghost predicate IsRun(w: World, steps: seq<Step>)
    decreases |steps|
  {
    steps == [] || (Enabled(w, steps[0]) && IsRun(Next(w, steps[0]), steps[1..]))
  }

  ghost function Final(w: World, steps: seq<Step>): World
    requires IsRun(w, steps)
    decreases |steps|
  {
    if steps == [] then w else Final(Next(w, steps[0]), steps[1..])
  }

  // ---------------------------------------------------------------- notifications

  /** The event rests after its `n` stored failures before it may be selected at `at`. */
  predicate Rested(history: seq<Try>, at: Time) {
    history != [] ==>
      && !history[|history| - 1].delivered
      && |history| < MAX_ATTEMPTS
      && history[|history| - 1].markedAt + BackoffSeconds(|history|) * SECOND < at
  }

  ghost predicate HistoryOk(history: seq<Try>) {
    && |history| <= MAX_ATTEMPTS
    && (forall i :: 0 <= i < |history| ==> history[i].selectedAt <= history[i].markedAt)
    && (forall i :: 0 <= i < |history| ==> Rested(history[..i], history[i].selectedAt))
  }

  predicate EndsDelivered(history: seq<Try>) {
    history != [] && history[|history| - 1].delivered
  }

  /** The stored row says exactly what its history says. */
  predicate Agrees(event: Event, history: seq<Try>) {
    match event.status
    case Pending => history == [] && event.attempts == 0
    case Sent => EndsDelivered(history) && event.attempts == |history| - 1
    case Failed =>
      && history != [] && !EndsDelivered(history) && event.attempts == |history|
      && event.updatedAt == history[|history| - 1].markedAt
  }

  ghost predicate EventOk(w: World, id: Id) {
    && HistoryOk(TriesOf(w, id))
    && (id in w.tables.events ==> id in w.used && Agrees(w.tables.events[id], TriesOf(w, id)))
    && (id in w.queue ==> id in w.used && Rested(TriesOf(w, id), w.selectedAt))
    && (id !in w.used ==> TriesOf(w, id) == [])
    && Count(w.past.sends, id) == |TriesOf(w, id)| + Count(w.past.lost, id)
    && Count(w.past.deliveries, id) == (if EndsDelivered(TriesOf(w, id)) then 1 else 0) + Count(w.past.lostDeliveries, id)
    && Count(w.past.lostDeliveries, id) <= Count(w.past.lost, id)
  }

  ghost predicate DispatcherOk(w: World) {
    Distinct(w.queue) && w.selectedAt <= w.clock
  }

  lemma HistoryGrows(history: seq<Try>, t: Try)
    requires HistoryOk(history) && Rested(history, t.selectedAt) && t.selectedAt <= t.markedAt
    ensures HistoryOk(history + [t])
  {
    var longer := history + [t];
    forall i | 0 <= i < |longer| ensures Rested(longer[..i], longer[i].selectedAt) {
      assert longer[..i] == history[..i];
      if i == |history| { assert history[..i] == history; }
    }
  }

  /** A step that leaves the history, the row and the queue place of `id` alone keeps EventOk. */
  lemma FrameEvent(w: World, w': World, id: Id)
    requires EventOk(w, id)
    requires TriesOf(w', id) == TriesOf(w, id)
    requires Count(w'.past.sends, id) == Count(w.past.sends, id)
    requires Count(w'.past.deliveries, id) == Count(w.past.deliveries, id)
    requires Count(w'.past.lost, id) == Count(w.past.lost, id)
    requires Count(w'.past.lostDeliveries, id) == Count(w.past.lostDeliveries, id)
    requires id in w.used ==> id in w'.used
    requires id in w'.tables.events ==> id in w.tables.events && w'.tables.events[id] == w.tables.events[id]
    requires id in w'.queue ==> id in w.queue && w'.selectedAt == w.selectedAt
    ensures EventOk(w', id)
  {
  }

  lemma OtherSent(w: World, delivered: bool, marked: bool, now: Time, id: Id)
    requires EventOk(w, id) && w.queue != [] && id != w.queue[0]
    ensures EventOk(AfterSend(w, delivered, marked, now), id)
  {
    FrameEvent(w, AfterSend(w, delivered, marked, now), id);
  }

  lemma LostSend(w: World, delivered: bool, now: Time)
    requires DispatcherOk(w) && w.queue != [] && EventOk(w, w.queue[0])
    ensures EventOk(AfterSend(w, delivered, false, now), w.queue[0])
  {
    var id, w' := w.queue[0], AfterSend(w, delivered, false, now);
    assert Count(w'.past.lost, id) == Count(w.past.lost, id) + 1 && Count(w'.past.sends, id) == Count(w.past.sends, id) + 1;
    assert Count(w'.past.lostDeliveries, id) == Count(w.past.lostDeliveries, id) + if delivered then 1 else 0;
    assert TriesOf(w', id) == TriesOf(w, id);
  }

  lemma MarkedSend(w: World, delivered: bool, now: Time)
    requires DispatcherOk(w) && w.queue != [] && EventOk(w, w.queue[0]) && w.clock <= now
    ensures EventOk(AfterSend(w, delivered, true, now), w.queue[0])
  {
    var id, w' := w.queue[0], AfterSend(w, delivered, true, now);
    var t := Try(w.selectedAt, now, delivered);
    assert id in w.queue;
    HistoryGrows(TriesOf(w, id), t);
    assert TriesOf(w', id) == TriesOf(w, id) + [t];
    assert id !in w'.queue;
    assert id in w.tables.events ==> Agrees(w'.tables.events[id], TriesOf(w', id));
    assert Count(w'.past.sends, id) == Count(w.past.sends, id) + 1;
    assert Count(w'.past.deliveries, id) == Count(w.past.deliveries, id) + if delivered then 1 else 0;
  }

  lemma SendKeepsEvent(w: World, delivered: bool, marked: bool, now: Time, id: Id)
    requires DispatcherOk(w) && EventOk(w, id) && w.queue != [] && w.clock <= now
    ensures EventOk(AfterSend(w, delivered, marked, now), id)
  {
    if id != w.queue[0] {
      OtherSent(w, delivered, marked, now, id);
    } else if marked {
      MarkedSend(w, delivered, now);
    } else {
      LostSend(w, delivered, now);
    }
  }

  lemma SelectKeepsEvent(w: World, picked: seq<Id>, now: Time, id: Id)
    requires EventOk(w, id) && Enabled(w, SelectEvents(picked, now))
    ensures EventOk(Effect(w, SelectEvents(picked, now)), id)
  {
    if id in picked {
      assert IsDueEvent(w.tables.events[id], now);
      assert Agrees(w.tables.events[id], TriesOf(w, id));
    }
  }

  lemma RecordKeepsEvent(w: World, s: Step, id: Id)
    requires EventOk(w, id) && Enabled(w, s) && s.Record?
    ensures EventOk(Effect(w, s), id)
  {
    var w' := Effect(w, s);
    if id == s.ids.event && s.notifies {
      assert id !in w.used && TriesOf(w', id) == [] && w'.tables.events[id].status == Pending;
    } else {
      FrameEvent(w, w', id);
    }
  }

  predicate IsDispatch(s: Step) {
    s.Record? || s.SelectEvents? || s.Send?
  }

  /** Every other step leaves the dispatcher's state and history alone, except that
      deleting an endpoint removes events and a crash drops the batch. */
  lemma QuietStep(w: World, s: Step)
    requires Enabled(w, s) && !IsDispatch(s)
    ensures var w' := Effect(w, s);
            && w'.past == w.past
            && w'.used == w.used && w'.selectedAt == w.selectedAt
            && (w'.queue == w.queue || w'.queue == [])
            && w'.tables.events == if s.DeleteEndpoint? then WithoutEndpoint(w.tables, s.endpoint).events else w.tables.events
  {
  }

  lemma OthersKeepEvent(w: World, s: Step, id: Id)
    requires EventOk(w, id) && Enabled(w, s) && !IsDispatch(s)
    ensures EventOk(Effect(w, s), id)
  {
    QuietStep(w, s);
    FrameEvent(w, Effect(w, s), id);
  }

  lemma StepKeepsDispatcher(w: World, s: Step)
    requires DispatcherOk(w) && Enabled(w, s)
    ensures DispatcherOk(Next(w, s))
  {
    if !IsDispatch(s) {
      QuietStep(w, s);
    }
  }

  lemma DispatchKeepsEvent(w: World, s: Step, id: Id)
    requires DispatcherOk(w) && EventOk(w, id) && Enabled(w, s) && IsDispatch(s)
    ensures EventOk(Effect(w, s), id)
  {
    match s {
      case Send(delivered, marked, now) => SendKeepsEvent(w, delivered, marked, now, id);
      case SelectEvents(picked, now) => SelectKeepsEvent(w, picked, now, id);
      case Record(_, _, _, _, _, _) => RecordKeepsEvent(w, s, id);
    }
  }

  lemma StepKeepsEvent(w: World, s: Step, id: Id)
    requires DispatcherOk(w) && EventOk(w, id) && Enabled(w, s)
    ensures EventOk(Next(w, s), id)
  {
    if IsDispatch(s) {
      DispatchKeepsEvent(w, s, id);
    } else {
      OthersKeepEvent(w, s, id);
    }
    FrameEvent(Effect(w, s), Next(w, s), id);
  }

  lemma {:induction false} RunKeepsEvent(w: World, steps: seq<Step>, id: Id)
    requires DispatcherOk(w) && EventOk(w, id) && IsRun(w, steps)
    ensures EventOk(Final(w, steps), id)
    decreases |steps|
  {
    if steps != [] {
      StepKeepsDispatcher(w, steps[0]);
      StepKeepsEvent(w, steps[0], id);
      RunKeepsEvent(Next(w, steps[0]), steps[1..], id);
    }
  }

  /** What any run from an empty database did to an event. Every send is a stored try or
      a lost mark, with at most five stored tries. Every delivery is the last stored try
      or had its mark lost, so the event is delivered at most once exactly when no mark
      of a delivery was lost, or one was and no delivery is stored. `attempts` counts the
      stored failures, and `sent` says that the last stored try was a delivery. */
  lemma NotificationBounds(steps: seq<Step>, id: Id)
    requires IsRun(INITIAL, steps)
    ensures var w := Final(INITIAL, steps);
            var history, lost := TriesOf(w, id), Count(w.past.lostDeliveries, id);
            && Count(w.past.sends, id) == |history| + Count(w.past.lost, id)
            && |history| <= MAX_ATTEMPTS
            && Count(w.past.deliveries, id) == (if EndsDelivered(history) then 1 else 0) + lost
            && (Count(w.past.deliveries, id) <= 1 <==> lost == 0 || (lost == 1 && !EndsDelivered(history)))
            && (forall i :: 0 <= i < |history| - 1 ==> !history[i].delivered)
            && (id in w.tables.events ==>
                && (w.tables.events[id].status == Sent <==> EndsDelivered(history))
                && w.tables.events[id].attempts == |history| - (if EndsDelivered(history) then 1 else 0))
  {
    RunKeepsEvent(INITIAL, steps, id);
    var history := TriesOf(Final(INITIAL, steps), id);
    forall i | 0 <= i < |history| - 1 ensures !history[i].delivered {
      assert Rested(history[..i + 1], history[i + 1].selectedAt);
    }
  }

  /** Every mark after a successful send is stored. */
  predicate DeliveriesMarked(steps: seq<Step>) {
    forall i :: 0 <= i < |steps| && steps[i].Send? && steps[i].delivered ==> steps[i].marked
  }

  predicate AllMarked(steps: seq<Step>) {
    forall i :: 0 <= i < |steps| && steps[i].Send? ==> steps[i].marked
  }

  lemma {:induction false} NothingLost(w: World, steps: seq<Step>, id: Id)
    requires IsRun(w, steps)
    ensures DeliveriesMarked(steps) ==> Count(Final(w, steps).past.lostDeliveries, id) == Count(w.past.lostDeliveries, id)
    ensures AllMarked(steps) ==> Count(Final(w, steps).past.lost, id) == Count(w.past.lost, id)
    decreases |steps|
  {
    if steps != [] {
      NothingLost(Next(w, steps[0]), steps[1..], id);
      assert forall i :: 0 <= i < |steps[1..]| ==> steps[1..][i] == steps[i + 1];
      if !IsDispatch(steps[0]) {
        QuietStep(w, steps[0]);
      }
    }
  }

  /** The documented bounds. With the marks of deliveries stored, an event is delivered at
      most once; with all marks stored, it is also sent at most five times. */
  lemma ReliableMarks(steps: seq<Step>, id: Id)
    requires IsRun(INITIAL, steps) && DeliveriesMarked(steps)
    ensures Count(Final(INITIAL, steps).past.deliveries, id) <= 1
    ensures AllMarked(steps) ==> Count(Final(INITIAL, steps).past.sends, id) <= MAX_ATTEMPTS
  {
    NotificationBounds(steps, id);
    NothingLost(INITIAL, steps, id);
  }

  lemma TwoSteps(w: World, s: Step, t: Step)
    requires Enabled(w, s) && Enabled(Next(w, s), t)
    ensures IsRun(w, [s, t]) && Final(w, [s, t]) == Next(Next(w, s), t)
  {
    hide Enabled, Effect, Next;
    var last := [s, t][1..];
    assert last == [t] && last[1..] == [];
    assert IsRun(Next(Next(w, s), t), []);
    assert IsRun(Next(w, s), last) && Final(Next(w, s), last) == Next(Next(w, s), t);
  }

  lemma {:induction false} RunsJoin(w: World, first: seq<Step>, second: seq<Step>)
    requires IsRun(w, first) && IsRun(Final(w, first), second)
    ensures IsRun(w, first + second) && Final(w, first + second) == Final(Final(w, first), second)
    decreases |first|
  {
    hide Enabled, Effect, Next;
    if first == [] {
      assert first + second == second;
    } else {
      RunsJoin(Next(w, first[0]), first[1..], second);
      assert (first + second)[1..] == first[1..] + second;
    }
  }

  function Alerting(): seq<Step> {
    [Record(7, FreshIds(0, 1, 2), true, true, false, 0), SelectEvents([1], 0)]
  }

  /** One pending event, selected by the dispatcher. */
  lemma AlertingState()
    ensures IsRun(INITIAL, Alerting()) && Final(INITIAL, Alerting()) ==
            INITIAL.(tables := Tables(map[0 := Check(7, true, Some(1))], map[1 := Event(7, Pending, 0, 0, 0)], map[]),
                     queue := [1], used := {0, 1, 2})
  {
    var w1 := Next(INITIAL, Alerting()[0]);
    assert w1.tables.events == map[1 := Event(7, Pending, 0, 0, 0)];
    TwoSteps(INITIAL, Alerting()[0], SelectEvents([1], 0));
  }

  /** A delivery whose mark is lost leaves the event pending, to be selected again. */
  lemma LostState(w: World)
    requires w.queue == [1] && w.clock == 0 && w.tables.events == map[1 := Event(7, Pending, 0, 0, 0)]
    ensures var steps := [Send(true, false, 0), SelectEvents([1], 0)];
            && IsRun(w, steps)
            && Final(w, steps).queue == [1] && Final(w, steps).clock == 0
            && Count(Final(w, steps).past.deliveries, 1) == Count(w.past.deliveries, 1) + 1
  {
    var w1 := Next(w, Send(true, false, 0));
    assert w1.queue == [] && w1.tables == w.tables;
    TwoSteps(w, Send(true, false, 0), SelectEvents([1], 0));
  }

  lemma MarkedState(w: World)
    requires w.queue == [1] && w.clock == 0
    ensures IsRun(w, [Send(true, true, 0), Crash(0)])
    ensures Count(Final(w, [Send(true, true, 0), Crash(0)]).past.deliveries, 1) == Count(w.past.deliveries, 1) + 1
  {
    TwoSteps(w, Send(true, true, 0), Crash(0));
  }

  /** A lost mark does deliver a notification twice: selected, sent, not marked; selected, sent, marked. */
  lemma DeliveredTwice()
    ensures var steps := Alerting() + ([Send(true, false, 0), SelectEvents([1], 0)] + [Send(true, true, 0), Crash(0)]);
            IsRun(INITIAL, steps) && Count(Final(INITIAL, steps).past.deliveries, 1) == 2
  {
    hide Enabled, Effect, Next, Alerting;
    var lose, mark := [Send(true, false, 0), SelectEvents([1], 0)], [Send(true, true, 0), Crash(0)];
    AlertingState();
    var w := Final(INITIAL, Alerting());
    LostState(w);
    MarkedState(Final(w, lose));
    RunsJoin(w, lose, mark);
    RunsJoin(INITIAL, Alerting(), lose + mark);
  }

  /** A fifth stored try is selected more than 300 seconds after the first was marked. */
  lemma FifthTryIsLate(steps: seq<Step>, id: Id)
    requires IsRun(INITIAL, steps)
    requires |TriesOf(Final(INITIAL, steps), id)| == MAX_ATTEMPTS
    ensures var history := TriesOf(Final(INITIAL, steps), id);
            history[4].selectedAt > history[0].markedAt + 300 * SECOND
  {
    RunKeepsEvent(INITIAL, steps, id);
    Backoffs();
    var history := TriesOf(Final(INITIAL, steps), id);
    assert forall i :: 1 <= i < 5 ==> Rested(history[..i], history[i].selectedAt);
    assert history[1].selectedAt > history[0].markedAt + 20 * SECOND;
    assert history[2].selectedAt > history[1].markedAt + 40 * SECOND;
    assert history[3].selectedAt > history[2].markedAt + 80 * SECOND;
    assert history[4].selectedAt > history[3].markedAt + 160 * SECOND;
  }

  predicate IsSent(w: World, id: Id) {
    id in w.tables.events && w.tables.events[id].status == Sent
  }

  predicate IsUsedUp(w: World, id: Id) {
    id in w.used && id !in w.tables.events
  }

  lemma StepKeepsSent(w: World, s: Step, id: Id)
    requires EventOk(w, id) && Enabled(w, s) && (IsSent(w, id) || IsUsedUp(w, id))
    ensures IsSent(Next(w, s), id) || IsUsedUp(Next(w, s), id)
  {
    if !IsDispatch(s) {
      QuietStep(w, s);
    }
  }

  /** `sent` is absorbing: an event once sent stays sent until its endpoint is deleted. */
  lemma {:induction false} SentForever(w: World, steps: seq<Step>, id: Id)
    requires DispatcherOk(w) && EventOk(w, id) && IsRun(w, steps) && (IsSent(w, id) || IsUsedUp(w, id))
    ensures IsSent(Final(w, steps), id) || IsUsedUp(Final(w, steps), id)
    decreases |steps|
  {
    if steps != [] {
      StepKeepsDispatcher(w, steps[0]);
      StepKeepsEvent(w, steps[0], id);
      StepKeepsSent(w, steps[0], id);
      SentForever(Next(w, steps[0]), steps[1..], id);
    }
  }
}
