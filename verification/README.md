# Verification of w8nc

w8nc stores HTTP endpoints, pings the active ones on their interval, evaluates a
notification condition on every result, and delivers alerts and screenshots through
two outboxes. This project models its stateful core in Dafny and proves what the
parts promise together, over every run where the promise is about runs.

`dafny verify dfyconfig.toml` checks everything.

## How it is organised

| file | what it holds |
|---|---|
| Conditions, Endpoints | one endpoint row, what each SQL statement does to it, what a ping result decides |
| Store, Services | the database as a class with the store's methods; the scheduler, dispatcher and screenshot ticks over it |
| Monitor | runs of endpoint statements in any interleaving, with in-flight snapshots: row invariant, schedule, notify-once budget |
| Uptime | deactivation deadlines over crashes and restarts |
| Scheduling, SchedulingRuns | no starvation: over rounds, and over the runs of the monitor |
| RowLaws, RowRuns | what a row means to somebody who looks at it (due, expired, state on show), statement by statement and between two writes of a run |
| Baseline | the stored baseline against the whole ping history |
| Outbox, OutboxRuns, OutboxProgress, DispatchRuns | notification outbox: statements, bounds over runs, progress over rounds and over runs |
| ScreenshotRuns | screenshots against the notifications they belong to |
| EndToEnd | endpoints and outboxes in one system: how often an alert reaches the user |
| FifoCache, TlsVerify | certificate chain repair and its bounded caches |
| CurlTokens, CurlImport, CurlRoundTrip, CurlOptions | the curl importer: tokenizer, option parser, printer and round trip, and what any mix of options means |
| Socks5, RateLimiter, Interval, KeyRotation | SOCKS5 client, login limiter, interval strings, key rotation |

A ping is not atomic in the source, and neither is an update: both act on a row read
earlier. The run models keep that. A step is one SQL statement or the moment a
snapshot is taken, and anything may happen in between. Some histories (counts of
activations, tries, captures) are carried along for the statements; no step reads them.

Methods in `Store`, `Services`, `TlsVerify`, `Socks5`, `RateLimiter`, `KeyRotation`,
`CurlTokens` and `CurlImport` follow the loops and branches of the source and are
proved against functions on values. The main results are lemmas about those functions.
Limits and codes are written out in the contracts that depend on them, and what a row or
a message means is stated of its fields, so that a constant or a branch that changes
shows up as a contract that no longer holds.

## What turned out not to hold

- An active endpoint can lose its next run: a manual ping that starts while the endpoint
  is inactive and ends after it was switched on writes NULL into `next_run_at`
  (internal/db/db.go:742-751). `Monitor.StepKeepsScheduled` shows that nothing else can do
  it. `Monitor.OverlapStrandsEndpoint` gives the run, and shows that every scheduler round
  then passes the endpoint over until somebody activates or edits it or pings it by hand;
  one more manual ping schedules it again (`Monitor.AnotherPingReschedules`).
- One activation can raise two notify-once alerts when two manual pings overlap.
  `Monitor.LateEventExceeds` gives the run. `Monitor.StepKeepsPromise` says which steps
  break the promise: exactly those that record a manual notify-once event late, on a row
  already off or with a scheduled ping in flight, when no activation is left for it.
  `Monitor.OneAlertPerActivation` says the same of whole runs, and
  `Monitor.NotifyOnceBudget` bounds what can come on top.
- `ValidateInterval` accepts strings beyond its maximum when the product wraps around
  int64: `213504d` validates as 1526 seconds. `Interval.OverflowSlipsThrough` gives the
  input and `Interval.ValidatedWithinBounds` the exact condition.
- A notification can be delivered twice when the mark after a successful send is lost.
  `OutboxRuns.DeliveredTwice` gives the run, `OutboxRuns.NotificationBounds` the exact
  number of deliveries and when it is at most one, and `OutboxRuns.ReliableMarks` the
  plain bounds for marks that are stored.
- Not every request survives the curl importer. `CurlRoundTrip.RequestRoundTrip` states
  exactly which do. A CRLF in a body comes back as a newline (`CurlRoundTrip.CrlfIsLost`), a
  header name with a colon is cut there (`CurlRoundTrip.ColonMoves`), and a body without a
  content type is given one (`CurlRoundTrip.ContentTypeIsAdded`).
- `connectRequest` cuts a host name over 255 bytes and replaces a bad port by 0, so it
  then asks for another target. `Socks5.RequestIsExact` is the exact condition and
  `Socks5.LongNameIsCut` a target that fails it.
- The comment on `isIssuerOf` asks for an issuer inside its validity window; the code
  allows five minutes on either side. `TlsVerify.GraceIsSkew` says what it accepts and
  `TlsVerify.ExpiredIssuerCounts` gives an expired issuer that it does.

## Model

| member | source | states |
|---|---|---|
| Monitor.NotifyOnceBudget | internal/db/db.go:697-764 | In every interleaving of edits, sweeps, manual pings, crashes and one scheduler with stale snapshots, scheduled pings raise at most one notify-once event per activation, and scheduled and manual pings together at most one per activation plus one per late manual event (an upper bound; StepKeepsPromise has the exact condition). Both bounds leave one activation unspent while the endpoint is active or being pinged. |
| Monitor.StepKeepsBudget | internal/db/db.go:590-626 | Each single statement keeps both forms of `events + [active or in flight] <= activations (+ late)` for every endpoint. |
| Monitor.StepKeepsPromise | internal/db/db.go:697-764 | While an endpoint has raised at most one notify-once event per activation, with one unspent while it is active or being pinged, a step keeps that if and only if it is not a late manual event arriving when every activation is spent or about to be. |
| Monitor.OneAlertPerActivation | internal/scheduler/scheduler.go:31-74 | Over any run from an empty database, that promise holds in every state if and only if no step of the run is such an event. |
| Monitor.CommitActivity | internal/db/db.go:731-760 | Recording a ping never switches an endpoint on and switches it off exactly on a notify-once event, whatever the row has become meanwhile. |
| Monitor.LateEventExceeds | internal/scheduler/scheduler.go:31-34 | A run with one activation, two overlapping manual pings and two notify-once events, the second late. |
| Monitor.ReachableRows | internal/db/db.go:364-488 | In every reachable state: a deadline implies active; a lock implies active and scheduled; active implies no deactivation reason and a state other than deactivated; and active implies scheduled if no manual ping of an inactive endpoint overlapped its activation. |
| Monitor.StepKeepsRowsOk | internal/db/db.go:558-640 | Every statement keeps the row invariant of rows and of all snapshots in flight. |
| Monitor.StepKeepsScheduled | internal/db/db.go:742-760 | A step leaves some active endpoint without a next run if and only if it records a manual ping of a then inactive, now active endpoint. |
| Monitor.OverlapStrandsEndpoint | internal/db/db.go:742-751 | A concrete run leaves an active endpoint without a next run, and in every continuation that neither activates, edits nor manually pings it, no scheduler round picks it. |
| Monitor.StrandedUntilTouched | internal/db/db.go:599-608 | An endpoint without a next run and without an active snapshot in flight is never picked until somebody touches it. |
| Monitor.AnotherPingReschedules | internal/scheduler/scheduler.go:135-138 | A manual ping of an active endpoint that raises no notify-once event gives it a next run. |
| Uptime.DeadlineConserved | internal/db/db.go:666-677 | The deadline of an unedited endpoint that is still active is its first deadline plus the sum of (resume time - last seen) over the restarts. |
| Uptime.CreditCoversTimeDown | internal/db/db.go:642-686 | With a monotone clock, restarts credit at least the time the process was really down. |
| Uptime.CreditOverrun | cmd/server/main.go:352-367 | If every crash follows a stored heartbeat by at most `gap`, the credit exceeds the real downtime by at most `gap` per restart. |
| Uptime.UptimeHonoured | cmd/server/main.go:77-89 | A sweep switches the endpoint off exactly from the conserved deadline on: never before `limit` of real uptime, always after `limit` plus one heartbeat gap per restart. |
| Scheduling.NoStarvation | internal/db/db.go:599-608 | With limit k and r other endpoints due at or before it, a due endpoint is locked within r/k + 1 rounds. |
| Scheduling.PassedOver | internal/scheduler/scheduler.go:135-138 | A round that passes a due endpoint over serves k endpoints that were ahead of it, and leaves none of those ahead. |
| SchedulingRuns.PickedInTime | internal/scheduler/scheduler.go:36-74 | Over the steps of the monitor, in any interleaving that leaves a due endpoint alone: with r endpoints waiting ahead of it and e that may enter later, it is picked within (r + e)/k + 1 rounds. |
| SchedulingRuns.RoundTakes | internal/db/db.go:599-608 | A round that passes the endpoint over takes a full batch out of those waiting ahead of it. |
| SchedulingRuns.StepEnters | internal/db/db.go:418-488 | No step brings an endpoint to the front except by switching one on in the past, writing back an old next run, recording a ping whose next run is already over, or ending pings without a record; each brings at most one, a crash at most the batch. |
| SchedulingRuns.StepKeepsWaits | internal/db/db.go:711-762 | Every step that does not concern the waiting endpoint leaves it due, unlocked and where it is. |
| Baseline.BaselineIsLatest | internal/scheduler/scheduler.go:99-140 | After any sequence of pings, scheduled or manual, the stored baseline is the latest status seen and the latest length that was not cut short. |
| Baseline.StatusChangeFires | internal/conditions/conditions.go:83-87 | status_code_changed matches an evaluated ping exactly when the latest earlier status exists and differs. |
| Baseline.LengthChangeFires | internal/conditions/conditions.go:88-99 | response_length_changed matches exactly when the latest earlier complete length differs by more than the tolerance. |
| Conditions.ValidatedConditionsEvaluate | internal/conditions/conditions.go:106-128 | A condition that passed validation never makes evaluation fail. |
| Conditions.Evaluate | internal/conditions/conditions.go:52-104 | The evaluation decides the meaning of the condition, fails exactly when the value cannot be read, and carries the next baseline either way. |
| Conditions.BodyMatches | internal/conditions/conditions.go:68-74 | body_contains matches exactly the bodies of the form pre + text + post, for a nonempty text. |
| Conditions.StatusMatches | internal/conditions/conditions.go:75-81 | status_code_equals matches exactly the results with that status. |
| Conditions.ReadableMeans | internal/conditions/conditions.go:67-102 | Evaluation fails exactly on an unknown kind or a value of another JSON type; null reads as the zero value. |
| Conditions.ValidMeansUseful | internal/conditions/conditions.go:106-128 | Validation accepts exactly the conditions that can fire on an HTTP response and do not fire on a length that has not changed. |
| Common.ContainsMeans | internal/conditions/conditions.go:74 | A text is contained in a body exactly when the body is pre + text + post. |
| Outbox.CapNeverReached | internal/db/db.go:1110-1111 | The 300-second cap never shortens the backoff of an event that may still be retried. |
| Outbox.DueEventMeans | internal/db/db.go:1110-1111 | An event is due exactly when it is pending, or has failed less than five times and rested 20, 40, 80 or 160 seconds after its first, second, third or fourth failure. |
| Outbox.DueAttemptMeans | internal/db/db.go:868-871 | An attempt is due exactly when it is pending and its event is there and sent. |
| OutboxRuns.NotificationBounds | internal/db/db.go:1133-1141 | Over every run: sends are the stored tries, at most five, plus the lost marks; deliveries are exactly the marks lost after a delivery plus one if the last stored try was a delivery, so there is at most one exactly when no such mark was lost, or one was and no delivery is stored; `attempts` counts the stored failures and `sent` holds exactly when the last stored try was a delivery. |
| OutboxRuns.ReliableMarks | internal/scheduler/scheduler.go:85-95 | With the marks of deliveries stored an event is delivered at most once; with all marks stored it is also sent at most five times. |
| OutboxRuns.DeliveredTwice | internal/scheduler/scheduler.go:92-94 | A run with one lost mark in which an event is delivered twice. |
| OutboxRuns.FifthTryIsLate | internal/db/db.go:1107-1113 | A fifth stored try is selected more than 300 seconds after the first was marked. |
| OutboxRuns.SentForever | internal/scheduler/scheduler.go:85-95 | An event once sent stays sent until its endpoint is deleted. |
| OutboxProgress.FirstTryComesSoon | internal/scheduler/scheduler.go:76-97 | With every mark stored, a pending event with n older unsettled events is in the batch of one of the next n/4 + 1 rounds. |
| OutboxProgress.PassedOver | internal/db/db.go:1106-1131 | A round that passes a pending event over uses up at least 20 of the tries its older events have left in total. |
| DispatchRuns.FirstTryInTime | internal/scheduler/scheduler.go:76-97 | Over the steps of the outboxes, after any run from an empty database and in any interleaving that spares its endpoint: a pending event with n unsettled events ahead is in one of the next (5n + wasted)/20 + 1 batches, where only lost marks, batches dropped by a crash and events of the very same time count as wasted. |
| DispatchRuns.StepCosts | internal/db/db.go:1106-1141 | Each step takes from the tries left ahead of the event what it sends, at least twenty for a batch that passes it over, up to what it wastes. |
| OutboxProgress.ReachablePendingUntried | internal/db/db.go:1138-1141 | In every reachable state a pending event has no failed attempt. |
| ScreenshotRuns.ScreenshotsFollowDeliveries | internal/screenshots/service.go:43-76 | Over every run, racing retries included: captures plus one while pending are at most 1 plus the retry writes; an attempt, its check and its event name the same endpoint and each other; what was captured has its event sent. |
| ScreenshotRuns.StepKeepsShot | internal/db/db.go:860-898 | Each step of worker, dispatcher, retry and deletion keeps the capture budget and the causality of one attempt. |
| EndToEnd.AlertsDelivered | internal/db/db.go:697-764 | Over every interleaving of endpoint statements, pings, deliveries, retries, deletions and crashes: deliveries of the notify-once alerts of an endpoint are at most its activations plus its late manual events plus the deliveries whose mark was lost, strictly fewer while it is active or being pinged; every stored alert is an event of that endpoint. |
| EndToEnd.RecordCounts | internal/db/db.go:712-741 | The record of a ping raises one notify-once alert exactly when it is of this endpoint, finds its row and decides so. |
| Store.Earliest | internal/db/db.go:599-608 | ORDER BY ... LIMIT: ordered, distinct, within the limit, and nothing left out for something later. |
| Store.InsertKeepsTables | internal/db/db.go:704-730 | The inserts of a ping break no link, and the new attempt is linked to the new check and event. |
| Store.CascadeKeepsTables | internal/db/db.go:490-499 | The cascade of a deletion takes an attempt together with the check and event it names. |
| Store.Database.CreateEndpoint | internal/db/db.go:364-409 | One new row under a new id, all others unchanged. It is due from now on exactly if it is active, expires exactly its limit later, and every ping of it alerts on the record's condition, runs again after its interval and is switched off by a match exactly when the record does not continue on a match. |
| Store.Database.GetEndpoint | internal/db/db.go:411-416 | A read sweeps first: what it returns is never an expired row still marked active. |
| Store.Database.WriteEndpoint | internal/db/db.go:427-477 | The write of an update combines the current row, the possibly stale row read before and the record; whatever was read, the limit starts again and every later ping follows the record. |
| Store.Database.UpdateEndpoint | internal/db/db.go:418-488 | Sweep, read and write without interference, or only the sweep if there is no such row. Afterwards the endpoint is due at once if it was off, had expired or changed its interval, and otherwise when it was; its limit starts again, and a match switches it off exactly when the record does not continue on a match. |
| Store.Database.ActivateEndpoint | internal/db/db.go:558-574 | The endpoint is due at once and expires exactly its time limit later, or never without one; no other row changes; the store stays valid (row invariant, links, foreign keys, untried pending events). |
| Store.Database.DeactivateEndpoint | internal/db/db.go:576-588 | The endpoint is never due and never expires, and activating it later gives what activating it at once would have given, up to the version; no other row changes; the store stays valid. |
| Store.Database.DeleteEndpoint | internal/db/db.go:490-499 | No check, event or attempt names the endpoint any more, every other one is kept, and no kept attempt lost its check or event. |
| Store.Database.LockDueEndpoints | internal/db/db.go:590-626 | After a sweep, the earliest due rows up to the limit are locked and returned in order as they were before the lock. From now on, while nothing else writes a locked row, it is due at a time if and only if that is after now + lockFor. The store stays valid. |
| Store.Database.SelectDue | internal/db/db.go:599-612 | The locking SELECT returns the earliest due rows up to the limit, in order, leaving none out for a later one. |
| Store.Database.DeactivateExpiredEndpoints | internal/db/db.go:628-640 | Afterwards no row has expired by now or any earlier time; exactly those that had are off with their reason, the others are as they were, and the result counts them; the store stays valid. |
| Store.Database.ResumeAfterDowntime | internal/db/db.go:642-686 | Every active deadline moves by the time since last_seen, none on a first start or a clock that went back: an endpoint has expired exactly if it had that long before. last_seen becomes now. |
| Store.Database.MarkRuntimeSeen | internal/db/db.go:688-695 | A restart at any later time finds exactly the time since this heartbeat to make up for. |
| Store.Database.RecordPingResult | internal/db/db.go:697-764 | All four tables change together, or none for an unknown endpoint. Without a notify-once event the row of an active or manual ping shows offline exactly without a status, live exactly for 100 to 399 and warning otherwise; a notify-once event leaves it deactivated and off, and nothing else does; a check, an event and a linked attempt come as the match asks for. The store stays valid under any snapshot that met the row invariant when it was read. |
| Store.Database.InsertResult | internal/db/db.go:704-730 | A check always, naming the endpoint and the match; a pending, untried event exactly for a match of an active snapshot; an attempt tied to both exactly when a screenshot is wanted; all under new ids. |
| Store.Database.UpdateResult | internal/db/db.go:710-762 | The row update in its two forms, with the state that the status of the result stands for, in terms of the status alone. |
| Store.Database.DueNotificationEvents | internal/db/db.go:1106-1131 | The oldest due events up to the limit, in order, none left out for a younger one. |
| Store.Database.MarkNotificationSent | internal/db/db.go:1133-1136 | The event is never due again at any time; no other event changes; the store stays valid. |
| Store.Database.MarkNotificationFailed | internal/db/db.go:1138-1141 | The event is due again exactly when it has tries left and its backoff since now is over; no other event changes; the store stays valid. |
| Store.Database.DueScreenshotAttempts | internal/db/db.go:860-887 | The oldest pending attempts whose event is sent, up to the limit. |
| Store.Database.MarkScreenshotCapturing | internal/db/db.go:889-898 | Compare and set: claims an attempt exactly when it is still pending. |
| Store.Database.MarkScreenshot | internal/db/db.go:900-929 | With a final status the attempt is not due again, and it can be retried exactly if it failed; no other attempt changes; the store stays valid. |
| Store.Database.RetryScreenshotAttempt | internal/db/db.go:941-963 | Succeeds exactly on a failed attempt, which is then due exactly if its event is sent. |
| RowLaws.DueMeans | internal/db/db.go:599-605 | An endpoint is due exactly when it is active, its next run has come, and no lock reaches to now. |
| RowLaws.CreatedLaw | internal/db/db.go:373-383 | A new endpoint is due from now on and expires its limit later if it is active, and neither otherwise. |
| RowLaws.UpdatedLaw | internal/db/db.go:431-470 | What an edit leaves, field by field: due at once after switching on or a new interval and as before otherwise, its limit started again, the memory of its pings kept. |
| RowLaws.UpdatedFollows | internal/db/db.go:461-477 | After an edit, a match switches the endpoint off exactly when the record does not continue on a match, and the next run is one interval of the record later. |
| RowLaws.ActivatedLaw | internal/db/db.go:560-568 | Switching on starts afresh: due at once, state unknown, no reason, not notified, the limit running; settings and memory stay. |
| RowLaws.TurnedOffLaw | internal/db/db.go:578-582 | Switching off leaves a reason, no run and no deadline; settings and memory stay. |
| RowLaws.LockedLaw | internal/db/db.go:617-621 | A lock ends being due up to and including the end of the lease, and changes nothing else. |
| RowLaws.ExtendedLaw | internal/db/db.go:668-672 | A downtime moves the deadline of an active endpoint by its length, and nothing else of any row. |
| RowLaws.RecordedLaw | internal/db/db.go:731-762 | What the record of a ping leaves, field by field, in terms of the status, the match and the snapshot. |
| RowLaws.ProcessLaw | internal/scheduler/scheduler.go:99-140 | The match, the next run and the next baseline from the snapshot and the result; a condition that cannot be read leaves the baseline alone. |
| RowRuns.StateShown | internal/db/db.go:766-777 | Over any run after the record of a ping, until the row is written again: the endpoint shows the state that the status of that ping stands for, or deactivated after a notify-once match or a sweep at its limit. |
| RowRuns.StateLasts | internal/db/db.go:628-640 | Between two writes nothing changes the state on show but a sweep at the time limit. |
| RowRuns.PickedOncePerLease | internal/db/db.go:599-621 | Over any run after a round picked an endpoint, whatever becomes of its ping: the first round to pick it again comes after the lease has ended, unless somebody recorded, edited, switched or deleted it before. |
| RowRuns.StepKeepsLease | internal/db/db.go:602-605 | A step that does not write the row keeps its lease, and a round picks it only after that. |
| Services.Decide | internal/scheduler/scheduler.go:99-140 | The branches of processEndpoint take the decision that the run models use; without evaluation nothing matches, and the next run is one interval after the ping ended unless the snapshot is inactive or a notify-once match. |
| Services.ProcessEndpoint | internal/scheduler/scheduler.go:99-140 | One ping recorded: the row by the snapshot's decision, the outboxes by the notification it raises, or nothing for a deleted endpoint. |
| Services.PingNow | internal/scheduler/scheduler.go:31-34 | A manual ping evaluates its condition only if the endpoint was active. |
| Services.RunDueOnce | internal/scheduler/scheduler.go:36-74 | A tick locks the earliest due batch and turns the table into the one the scheduling rounds reason about; it adds exactly one check per result, one event per notification raised and one attempt per screenshot wanted, and changes nothing older. |
| Services.WorkOff | internal/scheduler/scheduler.go:51-72 | However many results came back, the jobs of a batch leave the rows and the outboxes as the whole round should. |
| Services.DispatchNotificationsOnce | internal/scheduler/scheduler.go:76-97 | A tick turns the events into the table the progress rounds reason about: each picked event is sent, or failed with one try more, as its delivery went, and no other event changes. |
| Services.RunScreenshotsOnce | internal/screenshots/service.go:26-41 | A tick captures exactly the due batch, each attempt ending with the status of its capture, and touches no other attempt; the store stays valid. |
| Services.Capture | internal/screenshots/service.go:43-76 | An attempt that can no longer be claimed is left alone; a claimed one ends with the outcome of its capture. |
| FifoCache.Cache.PutIfAbsent | internal/tlsverify/tlsverify.go:326-339 | Map and order list agree, the order list is the latest `capacity` insertions ever made, a present key changes nothing, and surviving entries keep their values. |
| FifoCache.Cache.MakeRoom | internal/tlsverify/tlsverify.go:332-336 | The eviction loop drops the oldest insertions until one more fits. |
| FifoCache.Cache.EvictOldest | internal/tlsverify/tlsverify.go:333-335 | One eviction removes the oldest key from both structures. |
| FifoCache.Cache.SizeBounded | internal/tlsverify/tlsverify.go:43-47 | A cache never holds more entries than its capacity, as many as its order list. |
| FifoCache.LastGrows | internal/tlsverify/tlsverify.go:332-338 | Evicting down to capacity - 1 and appending keeps the latest insertions. |
| TlsVerify.ReachesRootIffTrusted | internal/tlsverify/tlsverify.go:192-195 | Climbing the issuer graph from the leaf through the pool meets a root exactly when a certification path exists. |
| TlsVerify.TrustGrows | internal/tlsverify/tlsverify.go:137 | A larger pool trusts no less, so adding a fetched issuer cannot break a chain. |
| TlsVerify.GraceIsSkew | internal/tlsverify/tlsverify.go:281-293 | A certificate counts as an issuer exactly when names and key match and some clock at most five minutes off finds it in its window. |
| TlsVerify.ExpiredIssuerCounts | internal/tlsverify/tlsverify.go:288-292 | Five minutes after its end an issuer still counts, one tick later it does not. |
| TlsVerify.IssuerFromURL | internal/tlsverify/tlsverify.go:225-242 | Returns a true issuer of the child, cached or downloaded, finds one exactly when the cached entry is one or the URL serves one, and keeps what it downloads. |
| TlsVerify.FetchIssuer | internal/tlsverify/tlsverify.go:202-223 | Returns a true issuer, and gives up only when no URL among the first three that begins with http:// or https:// serves one. |
| TlsVerify.Repair | internal/tlsverify/tlsverify.go:129-143 | At most four hops, each a true issuer of the previous; accepts whenever some repairing list of at most four uniquely issued, served certificates exists. |
| TlsVerify.Verify | internal/tlsverify/tlsverify.go:95-144 | Accepts only a leaf for this server with a path to a system root through presented and fetched certificates; accepts whatever plain verification accepts; accepts whenever a repairing list exists, unless plain verification came across an expired issuer and reports that; without roots, certificates or fetching it does not repair. |
| TlsVerify.VerifyWithoutIntermediate | internal/tlsverify/tlsverify.go:129-143 | A server that sends only its leaf is accepted when the one known certificate with the name and key the leaf states is served at an http or https URL among the first three of the leaf, and a root issued it. |
| TlsVerify.VerdictMeans | internal/tlsverify/tlsverify.go:192-200 | Plain verification accepts exactly a current leaf for this server with a path to a root; it ends in an unknown authority, the only verdict that leads to repair, exactly when name and window are right, there is no path and no expired issuer is blamed. |
| TlsVerify.MeetsExpiredMeans | internal/tlsverify/tlsverify.go:197-200 | A search meets an expired issuer exactly when some chain of current certificates leads from the leaf to one whose issuer is outside its window. |
| TlsVerify.TransportFor | internal/tlsverify/tlsverify.go:171-190 | Always a transport pinned to the requested host, kept for the next call, with never more than the bound. |
| TlsVerify.NewCaches | internal/tlsverify/tlsverify.go:58-64 | Both caches start empty with their limits. |
| CurlTokens.Tokenize | web/src/utils/curl.ts:4-33 | The loop computes the recursive scan, errors included. |
| CurlTokens.ScanMeansWords | web/src/utils/curl.ts:7-29 | The text of any pieces scans to the words they denote. |
| CurlTokens.AcceptedIsItems | web/src/utils/curl.ts:7-29 | Every accepted text is made of well-formed pieces. |
| CurlTokens.TokensAreMeaning | web/src/utils/curl.ts:7-29 | The tokenizer returns `words` exactly when the text is made of unquoted, escaped, single-quoted and double-quoted pieces (POSIX.1-2017 Shell Command Language, section 2.2) that denote `words`. |
| CurlTokens.TokenizeWords | web/src/utils/curl.ts:7-32 | Space-joined words, each any mix of segments and empty words included, tokenize to the concatenations of their segments. |
| CurlTokens.UnquotedCharacter | web/src/utils/curl.ts:19-28 | Outside quotes a character is white space, a quote, a backslash, refused (one of the five shell operators and the backtick), or itself. |
| CurlTokens.BackslashInDouble | web/src/utils/curl.ts:9-15 | Inside double quotes a backslash disappears before a quote, a backslash, a dollar sign, a backtick or a newline, and stays otherwise. |
| CurlImport.ParseCurl | web/src/utils/curl.ts:35-104 | The option loop computes the recursive parse, errors included; CurlOptions.OptionsImport and CurlRoundTrip.RequestRoundTrip say what that parse means. |
| CurlOptions.OptionsImport | web/src/utils/curl.ts:35-104 | Any options in any order and spelling, with one http(s) URL and no method or a supported one: the command is accepted, the last method given counts, and without one it is HEAD under -I, GET under -G, POST with data and GET otherwise; data is joined by ampersands, or by nothing under --json, and goes into the query before the fragment under -G with no body; -A, -b and -u come back as their headers, and content type and accept are added where missing. Line ends are normalised first. |
| CurlOptions.OptionIsRead | web/src/utils/curl.ts:41-88 | One option, its value in the next word or attached, is read as what it means, and the rest of the command goes on from there. |
| CurlOptions.OptionsAdd | web/src/utils/curl.ts:38-40 | Good options add up: headers and data in order, the last method, the flags asked for, the one URL. |
| CurlOptions.FinishMeans | web/src/utils/curl.ts:89-103 | What is made of the options read: method, URL, headers and body as they mean together. |
| CurlOptions.FinishAccepts | web/src/utils/curl.ts:89-93 | After the options only URLs that are not http(s) and unsupported methods are refused, each with its error. |
| CurlOptions.FirstBadOption | web/src/utils/curl.ts:57-83 | The first option whose value cannot be read stops the import with its own error: a nameless header, a cookie file, credentials without a password, a file body. |
| CurlOptions.UnknownOption | web/src/utils/curl.ts:85 | Any other word that begins with a dash is refused. |
| CurlOptions.SecondUrlRefused | web/src/utils/curl.ts:86 | A second URL is refused. |
| CurlOptions.ValueMissing | web/src/utils/curl.ts:48-52 | An option at the end of the command without its value is refused. |
| CurlOptions.SensitiveMeans | web/src/utils/curl.ts:40 | A header is kept secret exactly when its name contains one of the five words, in any case. |
| CurlOptions.HasHeaderMeans | web/src/utils/curl.ts:101-102 | Header names are looked up without regard to the case of ASCII letters. |
| CurlOptions.JoinMeans | web/src/utils/curl.ts:94 | Joining puts the separator between any two parts and nowhere else. |
| CurlRoundTrip.QuotingRoundTrip | web/src/utils/curl.ts:4-33 | Any words at all, each in single quotes, tokenize back to themselves. |
| CurlRoundTrip.PrintingCommutes | web/src/utils/curl.ts:36 | Replacing CRLF in a printed command line replaces it in each of its words. |
| CurlRoundTrip.ArgsParse | web/src/utils/curl.ts:41-85 | The printed options of any request parse to its URL, method, headers in order and body, or fail on a bad header. |
| CurlRoundTrip.HeaderSurvives | web/src/utils/curl.ts:58-62 | A header comes back unchanged exactly when its name is nonempty, trimmed and colon-free, its value trimmed, and neither holds a CRLF. |
| CurlRoundTrip.RequestRoundTrip | web/src/utils/curl.ts:35-104 | Printing a request and importing it gives it back if and only if its URL is http(s), its method supported, its headers kept, URL and body free of CRLF, and a nonempty body has a content type. |
| CurlRoundTrip.CrlfIsLost | web/src/utils/curl.ts:36 | With everything else in order, a body comes back with its line ends normalised, so one with a CRLF comes back as another. |
| CurlRoundTrip.ContentTypeIsAdded | web/src/utils/curl.ts:101 | A body without a content type comes back with a form content type appended to the headers. |
| CurlRoundTrip.ColonMoves | web/src/utils/curl.ts:58-62 | A header name with a colon comes back cut at the colon, the rest moved to the value. |
| Socks5.RepliesRoundTrip | internal/socks5/dialer.go:46-81 | Well-formed proxy replies followed by any tunnelled bytes parse back, for all three address types. |
| Socks5.RepliesParseWhole | internal/socks5/dialer.go:46-81 | Whatever parses as replies is their encoding followed by the tunnelled bytes. |
| Socks5.Handshake | internal/socks5/dialer.go:38-81 | Succeeds exactly when the writes go through and the bytes begin with granting replies; it then has consumed those and not one byte of the tunnel, and has sent the greeting, the credentials if asked, and a request that decodes to the target. |
| Socks5.Negotiate | internal/socks5/dialer.go:39-63 | The greeting and, if the proxy selects it, username/password: success exactly on a well-formed selection, consuming just that. |
| Socks5.Connect | internal/socks5/dialer.go:64-80 | Sends the request and succeeds exactly on a well-formed granting reply, consuming just that. |
| Socks5.Authenticate | internal/socks5/dialer.go:83-104 | Sends the RFC 1929 request and succeeds exactly on a positive reply and credentials that fit. |
| Socks5.DiscardSocksAddress | internal/socks5/dialer.go:135-153 | Consumes exactly the bound address and port of any address type. |
| Socks5.ConnectRequest | internal/socks5/dialer.go:106-133 | The request always decodes (RFC 1928, sections 4 and 5) to the cut host and the port or 0. |
| Socks5.RequestAddress | internal/socks5/dialer.go:116-131 | Address type and bytes of the target, a long name cut to its length byte. |
| Socks5.RequestIsExact | internal/socks5/dialer.go:106-133 | The request decodes to the very host and port of the target exactly when the host is an address or has at most 255 bytes and the port is one; a malformed target asks for the empty name at port 0. |
| Socks5.AddressMeans | internal/socks5/dialer.go:115-131 | An IPv4 address, also one written in sixteen bytes, is asked for as IPv4, any other address as IPv6, a name as itself. |
| Socks5.GreetingOffers | internal/socks5/dialer.go:39-45 | The greeting decodes (RFC 1928, section 3) to no authentication, with username/password exactly when there is a username. |
| Socks5.CredentialsDecode | internal/socks5/dialer.go:83-95 | The credentials sent decode (RFC 1929, section 2) to the username and the password, in that order. |
| Socks5.LongNameIsCut | internal/socks5/dialer.go:125-128 | A name of 256 bytes with port 65536 is asked for as another name at port 0. |
| RateLimiter.IntervalBounded | internal/auth/auth.go:314-339 | Any closed interval of one window length holds at most 2 * limit - 1 failures of an address, for every gated history. |
| RateLimiter.BoundIsReached | internal/auth/auth.go:329-339 | That bound is attained. |
| RateLimiter.WindowsApart | internal/auth/auth.go:333-336 | A window opens more than one window length after the one before it. |
| RateLimiter.StillGated | internal/auth/auth.go:137-147 | A failure that was let through never overfills its window. |
| RateLimiter.SummaryGrows | internal/auth/auth.go:329-339 | The counter stays a summary of the full failure history. |
| RateLimiter.Limiter.Limited | internal/auth/auth.go:314-327 | Agrees with the specification over the full history although entries are dropped; LimitedIsJustified and BurstIsLimited say what that specification means. |
| RateLimiter.LimitedIsJustified | internal/auth/auth.go:314-327 | A refusal is justified: the address failed at least `limit` times in the closed window that ends now. |
| RateLimiter.BurstIsLimited | internal/auth/auth.go:320-326 | When all failures since the last success lie in the window that ends now, the address is limited if and only if they number at least `limit`. |
| RateLimiter.NewLimiter | internal/auth/auth.go:52 | The limiter of the server allows five failures in ten minutes. |
| RateLimiter.Limiter.RecordFailure | internal/auth/auth.go:329-339 | Adds one failure to the history of that address and to no other. |
| RateLimiter.Limiter.Reset | internal/auth/auth.go:341-345 | Forgets one address and no other. |
| RateLimiter.Limiter.ResetAll | internal/auth/auth.go:347-353 | Forgets every address and counts the entries dropped. |
| RateLimiter.Limiter.Login | internal/auth/auth.go:137-147 | Whoever is turned away failed at least `limit` times in the window that ends now; with fewer failures the password alone decides. A wrong password adds a failure, a right one clears the address; every history stays gated, and the clock is no later than the last reading, so the next login can follow. |
| RateLimiter.Limiter.FailuresBounded | internal/auth/auth.go:137-147 | In every valid gated state, which constructor, Login and Serve establish, no address has more than 2 * limit - 1 failures in a closed interval of one window length. |
| RateLimiter.LoginsBounded | internal/auth/auth.go:129-147 | Whatever logins a fresh limiter sees in time order, of any addresses: no closed interval of one window length holds more than 2 * limit - 1 failures of an address since its last success. |
| RateLimiter.Limiter.Serve | internal/auth/auth.go:129-147 | Handling logins one after the other gives exactly the answers and histories of that specification. |
| Interval.RoundTrip | internal/validation/interval.go:12-47 | Formatting then parsing gives the seconds back if and only if they are positive and their nanoseconds fit int64. |
| Interval.SmallestCount | internal/validation/interval.go:35-47 | The unit chosen is the coarsest that divides, so no other dividing unit gives a smaller count. |
| Interval.DecimalReadsBack | internal/validation/interval.go:17-20 | Printed decimals read back and have no leading zero. |
| Interval.ValidatedWithinBounds | internal/validation/interval.go:49-61 | An accepted string lies within the bounds if and only if its product fits int64; its seconds, formatted, validate to the same number. |
| Interval.ValidatesExactly | internal/validation/interval.go:49-61 | For every string that does not overflow: it is accepted, as its meaning in seconds, exactly when it matches the pattern and lies within the bounds, both included; otherwise the error says what is wrong. |
| Interval.PatternMeans | internal/validation/interval.go:10 | The pattern accepts exactly a positive decimal number without leading zero and a unit letter. |
| Interval.MeaningMeans | internal/validation/interval.go:21-29 | Such a string means that many seconds, minutes, hours or days. |
| Interval.OverflowSlipsThrough | internal/validation/interval.go:28-29 | A string far beyond a 30-day maximum that is accepted. |
| KeyRotation.Secrets.Rotate | cmd/server/main.go:215-314 | After a commit every secret decrypts under the new key to its old plaintext, blank values are untouched and the result counts the secrets; on failure nothing changes; it succeeds exactly when it commits and every secret was readable, if encryption does not fail. |
| KeyRotation.Secrets.RotateEndpoints | cmd/server/main.go:295-313 | Every endpoint row moves to the new key and the count is their secrets; it fails exactly when one cannot be read, if encryption does not. |
| KeyRotation.ReencryptString | cmd/server/main.go:316-329 | Moves one secret to the new key and leaves null and blank alone. |
| KeyRotation.BlankMeans | cmd/server/main.go:317 | A value is blank exactly when it has no character but white space. |
| KeyRotation.ReencryptHeaders | cmd/server/main.go:331-350 | Moves every header secret, changes nothing else of a header and keeps their order. |
| KeyRotation.RekeyTwice | cmd/server/main.go:215-314 | Rotations compose over settings, endpoints and headers: what the second reads is what the first was given. |
| KeyRotation.RotateAndBack | cmd/server/main.go:215-314 | Rotating to a new key and back goes through and counts the same secrets both times, and every secret reads under the old key as it did at first. |
| KeyRotation.RekeyedIsReadable | cmd/server/main.go:215-314 | After a rotation every secret is readable under the new key and their number is the same, so the next rotation can go ahead. |

## Left out

- Several server processes on one database, and leases between them: one scheduler, one dispatcher and one screenshot worker are modelled.
- Monitor.NotifyOnceBudget: a batch is taken only when the previous one has ended, as in `RunDueOnce`; a lock that runs out during a slow ping plays no part for that reason.
- Store.Database.LockDueEndpoints: does not model that SKIP LOCKED passes over a row another transaction is writing at that moment.
- Services.RunDueOnce: the workers are a loop, since they write different rows and their order does not matter; a cancelled context shows as dropped pings.
- Services.RunScreenshotsOnce: runs without interference, so the endpoint of an attempt is always found; interleavings, races for a claim and retries are in ScreenshotRuns.
- Store.Database.UpdateEndpoint: runs without interference; Monitor splits it into its read and its write.
- Scheduling.NoStarvation: is about rounds as the store runs them and assumes that every result is recorded, finishes no earlier than its lock, and that no other endpoint is moved ahead of the waiting one; intervals are at least a second, as validation demands. SchedulingRuns.PickedInTime does without these assumptions.
- OutboxProgress.FirstTryComesSoon: assumes stored marks, and that no older event appears or changes between rounds. DispatchRuns.FirstTryInTime does without.
- TlsVerify.Verify: the clock is read once per call; a certificate is reduced to names, keys, issuer, validity, CA flag, server use and URLs. Name constraints, path lengths, signature budgets, revocation and parsing belong to the x509 library, and so does the choice of the error it reports when a failed search met an expired issuer, which is a parameter.
- RateLimiter.Limiter.Login: logins run one after the other; concurrent logins can pass the check together and record more failures.
- Interval.ValidatedWithinBounds: bounds are taken up to the largest Duration.
- KeyRotation.Secrets.Rotate: the key checks before the transaction, migrations and the JSON encoding of headers are not modelled; the cipher is any pair that decrypts what it encrypted.
- CurlRoundTrip.RequestRoundTrip: URL parsing, percent encoding, base64 and Unicode upper casing are parameters; characters stand for UTF-16 units; only ASCII letters fold in header names.
- Socks5.Handshake: the reserved byte of the reply is not checked, as in the source, and a proxy that selects username/password unasked is answered.
- Time stamps are whole microseconds, so the text form of Postgres intervals plays no part.
- Columns no decision reads: names, URLs, tags, request headers, error texts, image data, template text; template rendering and message contents with them.
- `CreateNotificationEvent`, sessions, password changes, listing and pagination, settings, HTTP handlers, migrations.
- Network, Chromium, the notify binary and Telegram: each is an outcome given to the step.
- Pings themselves (redirects, decompression, retries of the connection): a ping is its result.
- The web interface apart from the curl importer.
