/** No endpoint starves (internal/scheduler/scheduler.go, RunDueOnce).

    A round sweeps expired endpoints, locks the earliest due ones up to a limit, and
    records a result for each of them before the next round starts. */
module Scheduling {
  import opened Common
  import opened Conditions
  import opened Endpoints

  datatype Round = Round(now: Time, lockFor: Time, picked: set<Id>, results: map<Id, PingResult>)

  type Table = map<Id, Row>

  /** Every picked endpoint gets a result, finished no earlier than it was locked. */
  ghost predicate CanRun(rows: Table, round: Round, limit: nat) {
    && IsDueBatch(SweptRows(rows, round.now), round.picked, limit, round.now)
    && (forall id :: id in round.picked ==>
          id in round.results && round.now <= round.results[id].finishedAt)
  }

  /** The row of a picked endpoint once its result is committed: the snapshot is the
      row as it was just before it was locked. */
  function Served(row: Row, round: Round, result: PingResult): Row {
    Recorded(Locked(row, round.now, round.lockFor), row, result, Process(row, result, true), false, result.finishedAt)
  }

  /** A picked endpoint without a result keeps its lock: its ping was dropped. */
  function AfterRound(rows: Table, round: Round): Table {
    map id | id in rows ::
      if id !in round.picked then Swept(rows[id], round.now)
      else if id in round.results then Served(Swept(rows[id], round.now), round, round.results[id])
      else Locked(Swept(rows[id], round.now), round.now, round.lockFor)
  }

  /** The table while a round is being worked off: `done` of the picked endpoints are recorded or dropped. */
  function During(rows: Table, round: Round, done: set<Id>): Table {
    map id | id in rows ::
      if id in round.picked && id !in done then Locked(Swept(rows[id], round.now), round.now, round.lockFor)
      else AfterRound(rows, round)[id]
  }

  lemma DuringRound(rows: Table, round: Round, done: set<Id>, id: Id)
    requires id in rows && id in round.picked && id !in done
    ensures var snap := Swept(rows[id], round.now);
            During(rows, round, done + {id}) ==
            if id !in round.results then During(rows, round, done)
            else
              var result := round.results[id];
              During(rows, round, done)[id := Recorded(During(rows, round, done)[id], snap, result,
                                                       Process(snap, result, true), false, result.finishedAt)]
  {
  }

  lemma DuringEnds(rows: Table, round: Round)
    ensures During(rows, round, {}) == LockedRows(SweptRows(rows, round.now), round.picked, round.now, round.lockFor)
    ensures During(rows, round, round.picked) == AfterRound(rows, round)
  {
  }

  /** The endpoints other than `x` that are to run at or before `due`. */
  function Ahead(rows: Table, x: Id, due: Time): set<Id> {
    set id | id in rows && id != x && rows[id].active
             && rows[id].nextRunAt.Some? && rows[id].nextRunAt.value <= due
  }

  predicate Waits(row: Row, due: Time, now: Time) {
    row.nextRunAt == Some(due) && IsDue(row, now) && !IsExpired(row, now)
  }

  ghost predicate PositiveIntervals(rows: Table) {
    forall id :: id in rows ==> rows[id].pingIntervalSeconds >= 1
  }

  /** A round that passes `x` over serves `limit` endpoints that were ahead of it, and
      none of those is ahead of it afterwards. */
  lemma PassedOver(rows: Table, round: Round, limit: nat, x: Id, due: Time)
    requires CanRun(rows, round, limit) && PositiveIntervals(rows)
    requires x in rows && Waits(rows[x], due, round.now) && x !in round.picked
    ensures x in AfterRound(rows, round) && AfterRound(rows, round)[x] == rows[x]
    ensures |Ahead(AfterRound(rows, round), x, due)| + limit <= |Ahead(rows, x, due)|
  {
    var before, after := Ahead(rows, x, due), Ahead(AfterRound(rows, round), x, due);
    var swept := SweptRows(rows, round.now);
    assert swept[x] == rows[x];
    assert |round.picked| == limit;
    forall id | id in round.picked ensures id in before && id !in after {
      assert id in swept && IsDue(swept[id], round.now) && swept[id].nextRunAt.value <= due;
      assert swept[id] == rows[id];
    }
    assert round.picked <= before;
    assert after <= before - round.picked;
    SubsetSize(round.picked, before);
    SubsetSize(after, before - round.picked);
  }

  /** Between two rounds anything may happen that leaves `x` alone and puts no other
      endpoint ahead of it: manual pings, activations and creations at a later time,
      deactivations, deletions, edits of other endpoints that keep their turn. */
  ghost predicate Undisturbed(rows: Table, rows': Table, x: Id, due: Time) {
    && x in rows && x in rows' && rows'[x] == rows[x]
    && Ahead(rows', x, due) <= Ahead(rows, x, due)
  }

  /** `tables[i]` is the table just before `rounds[i]`. */
  ghost predicate IsSchedule(tables: seq<Table>, rounds: seq<Round>, limit: nat, x: Id, due: Time) {
    && |tables| == |rounds|
    && (forall i :: 0 <= i < |rounds| ==> CanRun(tables[i], rounds[i], limit) && PositiveIntervals(tables[i]))
    && (forall i, j :: 0 <= i < j < |rounds| ==> rounds[i].now <= rounds[j].now)
    && (forall i :: 0 < i < |rounds| && x !in rounds[i - 1].picked ==>
          Undisturbed(AfterRound(tables[i - 1], rounds[i - 1]), tables[i], x, due))
  }

  lemma Distribute(limit: nat, n: nat)
    requires n > 0
    ensures limit * n == limit * (n - 1) + limit
  {
  }

  lemma ScheduleTail(tables: seq<Table>, rounds: seq<Round>, limit: nat, x: Id, due: Time)
    requires IsSchedule(tables, rounds, limit, x, due) && rounds != []
    ensures IsSchedule(tables[1..], rounds[1..], limit, x, due)
  {
    var t, r := tables[1..], rounds[1..];
    assert forall i :: 0 <= i < |r| ==> t[i] == tables[i + 1] && r[i] == rounds[i + 1];
    assert forall i :: 0 < i < |r| ==> t[i - 1] == tables[i] && r[i - 1] == rounds[i];
  }

  lemma {:induction false} EveryRoundPasses(tables: seq<Table>, rounds: seq<Round>, limit: nat, x: Id, due: Time)
    requires IsSchedule(tables, rounds, limit, x, due) && rounds != []
    requires x in tables[0] && tables[0][x].nextRunAt == Some(due)
    requires Waits(tables[0][x], due, rounds[0].now)
    requires !IsExpired(tables[0][x], rounds[|rounds| - 1].now)
    requires forall i :: 0 <= i < |rounds| ==> x !in rounds[i].picked
    ensures limit * |rounds| <= |Ahead(tables[0], x, due)|
    decreases |rounds|
  {
    hide AfterRound, CanRun, IsDueBatch, Ahead;
    PassedOver(tables[0], rounds[0], limit, x, due);
    if |rounds| > 1 {
      assert Undisturbed(AfterRound(tables[0], rounds[0]), tables[1], x, due);
      SubsetSize(Ahead(tables[1], x, due), Ahead(AfterRound(tables[0], rounds[0]), x, due));
      ScheduleTail(tables, rounds, limit, x, due);
      assert forall i :: 0 <= i < |rounds[1..]| ==> rounds[1..][i] == rounds[i + 1];
      EveryRoundPasses(tables[1..], rounds[1..], limit, x, due);
      Distribute(limit, |rounds|);
    }
  }

  /** With `r` endpoints due at or before it, a due endpoint is locked within r / limit + 1 rounds. */
  lemma NoStarvation(tables: seq<Table>, rounds: seq<Round>, limit: nat, x: Id, due: Time)
    requires limit > 0 && rounds != [] && IsSchedule(tables, rounds, limit, x, due)
    requires x in tables[0] && Waits(tables[0][x], due, rounds[0].now)
    requires !IsExpired(tables[0][x], rounds[|rounds| - 1].now)
    requires |rounds| == |Ahead(tables[0], x, due)| / limit + 1
    ensures exists i :: 0 <= i < |rounds| && x in rounds[i].picked
  {
    hide AfterRound, CanRun, IsDueBatch, Ahead, IsSchedule;
    if forall i :: 0 <= i < |rounds| ==> x !in rounds[i].picked {
      EveryRoundPasses(tables, rounds, limit, x, due);
    }
  }
}
