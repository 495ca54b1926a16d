/** Screenshots over whole runs (internal/screenshots/service.go, internal/db/db.go):
    every capture follows a delivered notification of the same endpoint, and the number
    of captures is bounded by the retries that were written. */
module ScreenshotRuns {
  import opened Common
  import opened Outbox
  import opened OutboxRuns

  ghost predicate KeysUsed(w: World) {
    w.tables.checks.Keys <= w.used && w.tables.events.Keys <= w.used && w.tables.attempts.Keys <= w.used
  }

  /** An attempt, its check and its event name the same endpoint, and the check names the event. */
  predicate Linked(t: Tables, attempt: Attempt) {
    && attempt.check in t.checks && attempt.event in t.events
    && t.checks[attempt.check].endpoint == attempt.endpoint
    && t.events[attempt.event].endpoint == attempt.endpoint
    && t.checks[attempt.check].event == Some(attempt.event)
  }

  ghost predicate AllLinked(w: World) {
    forall id :: id in w.tables.attempts ==> Linked(w.tables, w.tables.attempts[id])
  }

  predicate IsWaiting(w: World, id: Id) {
    id in w.tables.attempts && w.tables.attempts[id].status == Waiting
  }

  ghost predicate ShotOk(w: World, id: Id) {
    && (id in w.shots || Count(w.shotPast.captures, id) > 0 ==>
          && id in w.used
          && (id in w.tables.attempts ==> IsSent(w, w.tables.attempts[id].event)))
    && Count(w.shotPast.captures, id) + (if IsWaiting(w, id) then 1 else 0)
       <= 1 + Count(w.shotPast.retryWrites, id)
  }

  lemma StepKeepsLinks(w: World, s: Step)
    requires Enabled(w, s) && KeysUsed(w) && AllLinked(w)
    ensures KeysUsed(Next(w, s)) && AllLinked(Next(w, s))
  {
    if s.Send? {
      SendKeepsLinks(w, s);
    }
  }

  lemma SendKeepsLinks(w: World, s: Step)
    requires Enabled(w, s) && s.Send? && KeysUsed(w) && AllLinked(w)
    ensures KeysUsed(Effect(w, s)) && AllLinked(Effect(w, s))
  {
    var t' := Effect(w, s).tables;
    assert t'.events.Keys == w.tables.events.Keys;
    assert forall id :: id in t'.events ==> t'.events[id].endpoint == w.tables.events[id].endpoint;
  }

  lemma WorkerKeepsShot(w: World, s: Step, id: Id)
    requires Enabled(w, s) && ShotOk(w, id)
    requires s.Claim? || s.FinishShot? || s.ReadRetry? || s.WriteRetry? || s.Crash?
    ensures ShotOk(Effect(w, s), id)
  {
    if s.Claim? && id == w.shots[0] {
      assert id in w.shots;
    }
    assert s.Claim? ==> forall x :: x in w.shots[1..] ==> x in w.shots;
  }

  lemma TablesKeepShot(w: World, s: Step, id: Id)
    requires Enabled(w, s) && KeysUsed(w) && AllLinked(w) && ShotOk(w, id)
    requires id in w.tables.attempts ==> EventOk(w, w.tables.attempts[id].event)
    requires s.Record? || s.DeleteEndpoint? || s.Send? || s.SelectEvents? || s.SelectShots?
    ensures ShotOk(Effect(w, s), id)
  {
    if id in w.tables.attempts && IsSent(w, w.tables.attempts[id].event) {
      StepKeepsSent(w, s, w.tables.attempts[id].event);
    }
  }

  lemma StepKeepsShot(w: World, s: Step, id: Id)
    requires Enabled(w, s) && KeysUsed(w) && AllLinked(w) && ShotOk(w, id)
    requires id in w.tables.attempts ==> EventOk(w, w.tables.attempts[id].event)
    ensures ShotOk(Next(w, s), id)
  {
    if s.Claim? || s.FinishShot? || s.ReadRetry? || s.WriteRetry? || s.Crash? {
      WorkerKeepsShot(w, s, id);
    } else {
      TablesKeepShot(w, s, id);
    }
  }

  lemma {:induction false} RunKeepsShots(w: World, steps: seq<Step>, id: Id)
    requires IsRun(w, steps) && KeysUsed(w) && AllLinked(w) && ShotOk(w, id) && DispatcherOk(w)
    requires forall e :: EventOk(w, e)
    ensures AllLinked(Final(w, steps)) && ShotOk(Final(w, steps), id)
    decreases |steps|
  {
    if steps != [] {
      var s, w' := steps[0], Next(w, steps[0]);
      StepKeepsLinks(w, s);
      StepKeepsShot(w, s, id);
      StepKeepsDispatcher(w, s);
      forall e ensures EventOk(w', e) { StepKeepsEvent(w, s, e); }
      RunKeepsShots(w', steps[1..], id);
    }
  }

  /** From an empty database, in any interleaving, racing retries included: an attempt is
      captured at most once more than its retries were written, and once fewer while it
      waits; and whatever was captured is tied to a check and an event of the same
      endpoint, the event already sent. */
  lemma ScreenshotsFollowDeliveries(steps: seq<Step>, id: Id)
    requires IsRun(INITIAL, steps)
    ensures var w := Final(INITIAL, steps);
            && Count(w.shotPast.captures, id) + (if IsWaiting(w, id) then 1 else 0)
               <= 1 + Count(w.shotPast.retryWrites, id)
            && (id in w.tables.attempts ==> Linked(w.tables, w.tables.attempts[id]))
            && (id in w.tables.attempts && Count(w.shotPast.captures, id) > 0 ==>
                w.tables.events[w.tables.attempts[id].event].status == Sent)
  {
    RunKeepsShots(INITIAL, steps, id);
  }
}
