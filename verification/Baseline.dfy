/** The stored baseline as a summary of the whole ping history
    (internal/scheduler/scheduler.go processEndpoint, internal/conditions/conditions.go).

    The pings of one endpoint run one after the other, scheduled or manual, and its
    condition stays the same. Between two pings the row may be switched off and on
    or edited, as long as the condition is kept; no statement but RecordPingResult
    writes the baseline columns. */
module Baseline {
  import opened Common
  import opened Conditions
  import opened Endpoints

  datatype Ping = Ping(result: PingResult, manual: bool)

  /** A manual ping is evaluated only when its endpoint is active; a scheduled one always. */
  predicate Evaluates(row: Row, ping: Ping) {
    !ping.manual || row.active
  }

  function OutcomeOf(row: Row, ping: Ping): Outcome {
    Process(row, ping.result, Evaluates(row, ping))
  }

  function AfterPing(row: Row, ping: Ping): Row {
    Recorded(row, row, ping.result, OutcomeOf(row, ping), ping.manual, ping.result.finishedAt)
  }

  predicate SameMemory(a: Row, b: Row) {
    && a.notifyCondition == b.notifyCondition
    && a.baselineStatusCode == b.baselineStatusCode
    && a.baselineResponseLength == b.baselineResponseLength
  }

  /** `rows[i]` is the row that ping `i` finds, and the last row is what the last ping leaves. */
  ghost predicate IsHistory(rows: seq<Row>, pings: seq<Ping>) {
    && |rows| == |pings| + 1
    && Validates(rows[0].notifyCondition)
    && rows[0].baselineStatusCode.None? && rows[0].baselineResponseLength.None?
    && (forall i :: 0 <= i < |pings| ==> SameMemory(AfterPing(rows[i], pings[i]), rows[i + 1]))
  }

  predicate HasStatus(ping: Ping) {
    ping.result.statusCode.Some?
  }

  predicate HasLength(ping: Ping) {
    ping.result.responseLength.Some? && !ping.result.truncated
  }

  /** Ping `i` is the latest before ping `n` that satisfies `has`. */
  ghost predicate IsLatest(pings: seq<Ping>, has: Ping -> bool, n: nat, i: int) {
    0 <= i < n <= |pings| && has(pings[i]) && forall j :: i < j < n ==> !has(pings[j])
  }

  ghost predicate StatusRemembered(rows: seq<Row>, pings: seq<Ping>, n: nat)
    requires |rows| == |pings| + 1 && n <= |pings|
  {
    && (rows[n].baselineStatusCode.Some? <==> exists i :: IsLatest(pings, HasStatus, n, i))
    && (forall i :: IsLatest(pings, HasStatus, n, i) ==> rows[n].baselineStatusCode == pings[i].result.statusCode)
  }

  ghost predicate LengthRemembered(rows: seq<Row>, pings: seq<Ping>, n: nat)
    requires |rows| == |pings| + 1 && n <= |pings|
  {
    && (rows[n].baselineResponseLength.Some? <==> exists i :: IsLatest(pings, HasLength, n, i))
    && (forall i :: IsLatest(pings, HasLength, n, i) ==>
          rows[n].baselineResponseLength == pings[i].result.responseLength)
  }

  lemma LatestGrows(pings: seq<Ping>, has: Ping -> bool, n: nat, i: int)
    requires n < |pings|
    ensures IsLatest(pings, has, n + 1, i) <==> if has(pings[n]) then i == n else IsLatest(pings, has, n, i)
  {
    if !has(pings[n]) && IsLatest(pings, has, n + 1, i) {
      assert i != n;
      assert IsLatest(pings, has, n, i);
    }
  }

  lemma PingUpdatesMemory(row: Row, ping: Ping)
    requires Validates(row.notifyCondition)
    ensures var after := AfterPing(row, ping);
            && after.notifyCondition == row.notifyCondition
            && after.baselineStatusCode == NextStatus(row.baselineStatusCode, ping.result)
            && after.baselineResponseLength == NextLength(row.baselineResponseLength, ping.result)
  {
    ValidatedConditionsEvaluate(row.notifyCondition, row.baselineStatusCode, row.baselineResponseLength, ping.result);
  }

  /** Before every ping, the baseline is the latest status and the latest complete length seen so far. */
  lemma {:induction false} BaselineIsLatest(rows: seq<Row>, pings: seq<Ping>, n: nat)
    requires IsHistory(rows, pings) && n <= |pings|
    ensures rows[n].notifyCondition == rows[0].notifyCondition
    ensures StatusRemembered(rows, pings, n) && LengthRemembered(rows, pings, n)
  {
    if n > 0 {
      var m := n - 1;
      BaselineIsLatest(rows, pings, m);
      PingUpdatesMemory(rows[m], pings[m]);
      assert SameMemory(AfterPing(rows[m], pings[m]), rows[m + 1]);
      forall i: int
        ensures IsLatest(pings, HasStatus, n, i) <==> if HasStatus(pings[m]) then i == m else IsLatest(pings, HasStatus, m, i)
        ensures IsLatest(pings, HasLength, n, i) <==> if HasLength(pings[m]) then i == m else IsLatest(pings, HasLength, m, i)
      {
        LatestGrows(pings, HasStatus, m, i);
        LatestGrows(pings, HasLength, m, i);
      }
      assert HasStatus(pings[m]) ==> IsLatest(pings, HasStatus, n, m);
      assert HasLength(pings[m]) ==> IsLatest(pings, HasLength, n, m);
    }
  }

  /** status_code_changed fires on an evaluated ping exactly when an earlier ping had a
      status and the latest of those differs from this one. */
  lemma StatusChangeFires(rows: seq<Row>, pings: seq<Ping>, n: nat)
    requires IsHistory(rows, pings) && n < |pings|
    requires rows[0].notifyCondition.kind == StatusCodeChanged
    ensures OutcomeOf(rows[n], pings[n]).matched <==>
            && Evaluates(rows[n], pings[n]) && HasStatus(pings[n])
            && exists i :: IsLatest(pings, HasStatus, n, i) && pings[i].result.statusCode != pings[n].result.statusCode
  {
    BaselineIsLatest(rows, pings, n);
    if rows[n].baselineStatusCode.Some? {
      var i :| IsLatest(pings, HasStatus, n, i);
      assert rows[n].baselineStatusCode == pings[i].result.statusCode;
    }
  }

  /** response_length_changed fires exactly when the latest complete length before this
      ping is further away than the tolerance. */
  lemma LengthChangeFires(rows: seq<Row>, pings: seq<Ping>, n: nat)
    requires IsHistory(rows, pings) && n < |pings|
    requires rows[0].notifyCondition.kind == ResponseLengthChanged
    ensures var tolerance := if rows[0].notifyCondition.toleranceBytes.Some?
                             then rows[0].notifyCondition.toleranceBytes.value else 0;
            OutcomeOf(rows[n], pings[n]).matched <==>
            && Evaluates(rows[n], pings[n]) && HasLength(pings[n])
            && exists i :: IsLatest(pings, HasLength, n, i)
                 && var more := pings[n].result.responseLength.value - pings[i].result.responseLength.value;
                    more > tolerance || -more > tolerance
  {
    BaselineIsLatest(rows, pings, n);
    if rows[n].baselineResponseLength.Some? {
      var i :| IsLatest(pings, HasLength, n, i);
      assert rows[n].baselineResponseLength == pings[i].result.responseLength;
    }
  }
}
