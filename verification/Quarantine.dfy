/**
  Live broadcast attempts and the execution quarantine of crates/revops-db/src/fee_runway.rs:
  an intent is durable before the socket write, and a restart turns every intent without a
  result into an ambiguous one behind an active quarantine.
*/
module Quarantine {
  import opened Outcomes

  datatype AttemptOutcome = Success | Rejected | CleanFailure | Ambiguous

  datatype Attempt = Attempt(
    cycleId: Option<string>, channelId: string, requestId: string, submittedAt: int,
    outcome: Option<AttemptOutcome>, detail: Option<string>, completedAt: Option<int>)

  datatype Entry = Entry(
    reason: string, cycleId: Option<string>, channelId: Option<string>, requestId: Option<string>, enteredAt: int)

  datatype QuarantineRow = QuarantineRow(entry: Entry, clearedAt: Option<int>)

  /** Row ids are positions: neither table ever deletes. */
  datatype Tables = Tables(attempts: seq<Attempt>, quarantine: seq<QuarantineRow>)

  const RESTART_DETAIL := "resolved via restart reconciliation"
  const RESTART_REASON := "restart reconciliation"

  predicate IsOpen(a: Attempt) { a.outcome.None? }

  /** unresolved_broadcast_attempts: ids of the rows without a result, ascending. */
  function OpenIds(attempts: seq<Attempt>): (ids: seq<nat>)
    ensures forall i :: 0 <= i < |ids| ==> ids[i] < |attempts| && IsOpen(attempts[ids[i]])
    ensures forall i, j :: 0 <= i < j < |ids| ==> ids[i] < ids[j]
    ensures forall k: nat :: k < |attempts| && IsOpen(attempts[k]) ==> k in ids
  {
    if attempts == [] then []
    else
      var n := |attempts| - 1;
      var ids := OpenIds(attempts[..n]);
      assert forall k: nat :: k < n ==> attempts[..n][k] == attempts[k];
      if IsOpen(attempts[n]) then ids + [n] else ids
  }

  /** active_quarantine: the never-cleared row with the greatest (entered_at, id). */
  function ActiveQuarantine(rows: seq<QuarantineRow>): (r: Option<nat>)
    ensures r.Some? ==>
              && r.value < |rows| && rows[r.value].clearedAt.None?
              && forall j :: 0 <= j < |rows| && rows[j].clearedAt.None? ==>
                   || rows[j].entry.enteredAt < rows[r.value].entry.enteredAt
                   || (rows[j].entry.enteredAt == rows[r.value].entry.enteredAt && j <= r.value)
    ensures r.None? ==> forall j :: 0 <= j < |rows| ==> rows[j].clearedAt.Some?
  {
    if rows == [] then None
    else
      var n := |rows| - 1;
      var earlier := ActiveQuarantine(rows[..n]);
      assert forall j :: 0 <= j < n ==> rows[..n][j] == rows[j];
      if rows[n].clearedAt.None? && (earlier.None? || rows[earlier.value].entry.enteredAt <= rows[n].entry.enteredAt)
      then Some(n) else earlier
  }

  function Resolve(a: Attempt, now: int): Attempt {
    a.(outcome := Some(Ambiguous), detail := Some(RESTART_DETAIL), completedAt := Some(now))
  }

  /** Both tables after a restart reconciliation that succeeded at `now`. */
  function Reconciled(t: Tables, now: int): Tables {
    var ids := OpenIds(t.attempts);
    var attempts := seq(|t.attempts|, i requires 0 <= i < |t.attempts| =>
      if IsOpen(t.attempts[i]) then Resolve(t.attempts[i], now) else t.attempts[i]);
    if ids == [] || ActiveQuarantine(t.quarantine).Some? then Tables(attempts, t.quarantine)
    else
      var last := t.attempts[ids[|ids| - 1]];
      Tables(attempts, t.quarantine + [QuarantineRow(
        Entry(RESTART_REASON, None, Some(last.channelId), Some(last.requestId), now), None)])
  }

  /** BEGIN, the scan, one update an open row, the quarantine query and insert, COMMIT. */
  function ReconcileStatements(t: Tables): nat {
    var ids := OpenIds(t.attempts);
    if ids == [] then 3
    else 4 + |ids| + (if ActiveQuarantine(t.quarantine).None? then 1 else 0)
  }

  predicate RequestTaken(attempts: seq<Attempt>, requestId: string) {
    exists i :: 0 <= i < |attempts| && attempts[i].requestId == requestId
  }

  /** The foreign key from a quarantine row to the cycle table. */
  predicate CycleKnown(e: Entry, cycles: set<string>) {
    e.cycleId.Some? ==> e.cycleId.value in cycles
  }

  function OpenAttempt(cycleId: Option<string>, channelId: string, requestId: string, at: int): Attempt {
    Attempt(cycleId, channelId, requestId, at, None, None, None)
  }

  // ----- the operations as state transformers -------------------------------------------

  datatype Act =
    | Intent(cycleId: Option<string>, channelId: string, requestId: string, at: int, failAt: nat)
    | Report(id: nat, outcome: AttemptOutcome, detail: Option<string>, at: int, failAt: nat)
    | Enter(entry: Entry, cycles: set<string>, failAt: nat)
    | Restart(now: int, failAt: nat)

  function Step(t: Tables, a: Act): Tables {
    match a
    case Intent(cycleId, ch, rid, at, failAt) =>
      if failAt >= 1 && !RequestTaken(t.attempts, rid)
      then t.(attempts := t.attempts + [OpenAttempt(cycleId, ch, rid, at)]) else t
    case Report(id, outcome, detail, at, failAt) =>
      if failAt >= 1 && id < |t.attempts|
      then t.(attempts := t.attempts[id := t.attempts[id].(
        outcome := Some(outcome), detail := detail, completedAt := Some(at))])
      else t
    case Enter(e, cycles, failAt) =>
      if failAt >= 1 && CycleKnown(e, cycles) then t.(quarantine := t.quarantine + [QuarantineRow(e, None)]) else t
    case Restart(now, failAt) =>
      if failAt >= ReconcileStatements(t) then Reconciled(t, now) else t
  }

  function Run(t: Tables, acts: seq<Act>): Tables {
    if acts == [] then t else Step(Run(t, acts[..|acts| - 1]), acts[|acts| - 1])
  }

  class Ledger {
    var db: Tables

    constructor ()
      ensures db == Tables([], [])
    {
      db := Tables([], []);
    }

    method InsertBroadcastAttempt(cycleId: Option<string>, channelId: string, requestId: string, at: int, failAt: nat)
      returns (r: Result<nat>)
      modifies this
      ensures r.Ok? <==> failAt >= 1 && !RequestTaken(old(db).attempts, requestId)
      ensures r.Ok? ==> r.value == |old(db).attempts|
      ensures db == Step(old(db), Intent(cycleId, channelId, requestId, at, failAt))
    {
      if failAt == 0 || RequestTaken(db.attempts, requestId) { return Err; }
      r := Ok(|db.attempts|);
      db := db.(attempts := db.attempts + [OpenAttempt(cycleId, channelId, requestId, at)]);
    }

    /** No guard on an earlier outcome: a second report overwrites the first. */
    method RecordBroadcastAttemptResult(id: nat, outcome: AttemptOutcome, detail: Option<string>, at: int, failAt: nat)
      returns (r: Result<()>)
      modifies this
      ensures r.Ok? <==> failAt >= 1 && id < |old(db).attempts|
      ensures db == Step(old(db), Report(id, outcome, detail, at, failAt))
    {
      if failAt == 0 || id >= |db.attempts| { return Err; }
      var row := db.attempts[id].(outcome := Some(outcome), detail := detail, completedAt := Some(at));
      db := db.(attempts := db.attempts[id := row]);
      return Ok(());
    }

    method InsertQuarantine(e: Entry, cycles: set<string>, failAt: nat) returns (r: Result<nat>)
      modifies this
      ensures r.Ok? <==> failAt >= 1 && CycleKnown(e, cycles)
      ensures r.Ok? ==> r.value == |old(db).quarantine|
      ensures db == Step(old(db), Enter(e, cycles, failAt))
    {
      if failAt == 0 || !CycleKnown(e, cycles) { return Err; }
      r := Ok(|db.quarantine|);
      db := db.(quarantine := db.quarantine + [QuarantineRow(e, None)]);
    }

    /** reconcile_quarantine_on_restart: all of it or none of it. */
    method ReconcileQuarantineOnRestart(now: int, failAt: nat) returns (r: Result<nat>)
      modifies this
      ensures r.Ok? <==> failAt >= ReconcileStatements(old(db))
      ensures r.Ok? ==> r.value == |OpenIds(old(db).attempts)|
      ensures db == Step(old(db), Restart(now, failAt))
    {
      if failAt == 0 { return Err; }
      var saved := db;
      r := ReconcileLocked(now, failAt - 1);
      if r.Err? { db := saved; }
    }

    method ReconcileLocked(now: int, failAt: nat) returns (r: Result<nat>)
      modifies this
      ensures r.Ok? <==> failAt + 1 >= ReconcileStatements(old(db))
      ensures r.Ok? ==> r.value == |OpenIds(old(db).attempts)| && db == Reconciled(old(db), now)
    {
      hide ActiveQuarantine, OpenIds;
      if failAt == 0 { return Err; }
      var t := db;
      var open := OpenIds(t.attempts);
      if open == [] {
        assert Reconciled(t, now) == t;
        if failAt == 1 { return Err; }
        return Ok(0);
      }
      for i := 0 to |open|
        invariant failAt >= 1 + i && db.quarantine == t.quarantine && |db.attempts| == |t.attempts|
        invariant forall k :: 0 <= k < |t.attempts| ==>
                    db.attempts[k] == if k in open[..i] then Resolve(t.attempts[k], now) else t.attempts[k]
      {
        if failAt == 1 + i { return Err; }
        var reported := RecordBroadcastAttemptResult(open[i], Ambiguous, Some(RESTART_DETAIL), now, 1);
        assert open[i] !in open[..i];
      }
      assert db.attempts == Reconciled(t, now).attempts;
      var at := 1 + |open|;
      if failAt == at { return Err; }
      at := at + 1;
      if ActiveQuarantine(db.quarantine).None? {
        if failAt == at { return Err; }
        var last := t.attempts[open[|open| - 1]];
        var _ := InsertQuarantine(
          Entry(RESTART_REASON, None, Some(last.channelId), Some(last.requestId), now), {}, 1);
        at := at + 1;
      }
      if failAt == at { return Err; }
      return Ok(|open|);
    }
  }

  // ----- what reconciliation promises ------------------------------------------------------

  lemma OpenIdsEmptyIff(attempts: seq<Attempt>)
    ensures OpenIds(attempts) == [] <==> forall i :: 0 <= i < |attempts| ==> !IsOpen(attempts[i])
  {
    if OpenIds(attempts) != [] {
      assert IsOpen(attempts[OpenIds(attempts)[0]]);
    }
  }

  /** A successful reconciliation leaves no attempt open, loses and reorders none, and leaves a
      recorded outcome as it was. */
  lemma NothingStaysOpen(t: Tables, now: int)
    ensures var t' := Reconciled(t, now);
            && OpenIds(t'.attempts) == []
            && |t'.attempts| == |t.attempts|
            && forall i :: 0 <= i < |t.attempts| ==>
                 && t'.attempts[i].requestId == t.attempts[i].requestId
                 && t'.attempts[i].outcome == (if IsOpen(t.attempts[i]) then Some(Ambiguous) else t.attempts[i].outcome)
  {
    var t' := Reconciled(t, now);
    OpenIdsEmptyIff(t'.attempts);
  }

  /** If anything was open, execution is quarantined afterwards; a quarantine that was already
      active is left exactly as it was. */
  lemma OpenImpliesQuarantined(t: Tables, now: int)
    ensures var t' := Reconciled(t, now);
            && (OpenIds(t.attempts) != [] ==> ActiveQuarantine(t'.quarantine).Some?)
            && (ActiveQuarantine(t.quarantine).Some? || OpenIds(t.attempts) == [] ==> t'.quarantine == t.quarantine)
            && (OpenIds(t.attempts) != [] && ActiveQuarantine(t.quarantine).None? ==>
                  ActiveQuarantine(t'.quarantine) == Some(|t.quarantine|))
  {
    var t' := Reconciled(t, now);
    if OpenIds(t.attempts) != [] && ActiveQuarantine(t.quarantine).None? {
      assert t'.quarantine[|t.quarantine|].clearedAt.None?;
      assert t'.quarantine[..|t.quarantine|] == t.quarantine;
    }
  }

  /** A second reconciliation changes nothing, whenever it runs. */
  lemma ReconcileIsIdempotent(t: Tables, now: int, later: int)
    ensures Reconciled(Reconciled(t, now), later) == Reconciled(t, now)
  {
    NothingStaysOpen(t, now);
    var t' := Reconciled(t, now);
    forall i | 0 <= i < |t'.attempts| ensures !IsOpen(t'.attempts[i]) {
      assert i !in OpenIds(t'.attempts);
    }
  }

  /** The quarantine table only grows, row by row unchanged: nothing in the file clears one. */
  lemma {:induction false} QuarantineOnlyGrows(t: Tables, acts: seq<Act>, i: nat)
    requires i <= |acts|
    ensures Run(t, acts[..i]).quarantine <= Run(t, acts).quarantine
  {
    if i == |acts| {
      assert acts[..i] == acts;
    } else {
      var earlier := acts[..|acts| - 1];
      QuarantineOnlyGrows(t, earlier, i);
      assert earlier[..i] == acts[..i];
    }
  }

  /** An active quarantine persists through every later state of every run. */
  lemma {:induction false} QuarantinePersists(t: Tables, acts: seq<Act>, i: nat)
    requires i <= |acts| && ActiveQuarantine(Run(t, acts[..i]).quarantine).Some?
    ensures ActiveQuarantine(Run(t, acts).quarantine).Some?
  {
    QuarantineOnlyGrows(t, acts, i);
    var rows := Run(t, acts[..i]).quarantine;
    var a := ActiveQuarantine(rows).value;
    assert Run(t, acts).quarantine[a] == rows[a];
  }

  lemma {:induction false} RunPrefix(t: Tables, acts: seq<Act>, i: nat)
    requires i < |acts|
    ensures Run(t, acts[..i + 1]) == Step(Run(t, acts[..i]), acts[i])
  {
    assert acts[..i + 1][..i] == acts[..i];
  }

  /** Whenever a restart finds an open intent and reconciles, execution stays denied from there on. */
  lemma {:induction false} RestartDeniesForever(t: Tables, acts: seq<Act>, i: nat)
    requires i < |acts| && acts[i].Restart?
    requires OpenIds(Run(t, acts[..i]).attempts) != []
    requires acts[i].failAt >= ReconcileStatements(Run(t, acts[..i]))
    ensures ActiveQuarantine(Run(t, acts).quarantine).Some?
  {
    OpenImpliesQuarantined(Run(t, acts[..i]), acts[i].now);
    RunPrefix(t, acts, i);
    QuarantinePersists(t, acts, i + 1);
  }

  ghost predicate UniqueRequests(attempts: seq<Attempt>) {
    forall i, j :: 0 <= i < j < |attempts| ==> attempts[i].requestId != attempts[j].requestId
  }

  lemma StepKeepsUnique(t: Tables, a: Act)
    requires UniqueRequests(t.attempts)
    ensures UniqueRequests(Step(t, a).attempts)
  {
    match a
    case Restart(now, _) => NothingStaysOpen(t, now);
    case _ =>
  }

  /** Request ids stay unique on every run, so no request is ever submitted under two intents. */
  lemma {:induction false} RequestsStayUnique(acts: seq<Act>)
    ensures UniqueRequests(Run(Tables([], []), acts).attempts)
  {
    if acts != [] {
      RequestsStayUnique(acts[..|acts| - 1]);
      StepKeepsUnique(Run(Tables([], []), acts[..|acts| - 1]), acts[|acts| - 1]);
    }
  }

  /** A report that reached its row. */
  predicate Lands(t: Tables, a: Act, id: nat) { a.Report? && a.id == id && a.failAt >= 1 && id < |t.attempts| }

  /** The outcome the history gives attempt `id`: the last landed report's, or that of a landed restart that
      found it open. */
  function OutcomeOf(t: Tables, acts: seq<Act>, id: nat): Option<AttemptOutcome> {
    if acts == [] then if id < |t.attempts| then t.attempts[id].outcome else None
    else
      var n := |acts| - 1;
      var now, earlier := Run(t, acts[..n]), OutcomeOf(t, acts[..n], id);
      if Lands(now, acts[n], id) then Some(acts[n].outcome)
      else if acts[n].Restart? && acts[n].failAt >= ReconcileStatements(now) && id < |now.attempts| && earlier.None?
      then Some(Ambiguous)
      else earlier
  }

  /** On every run the row holds exactly that outcome. */
  lemma {:induction false} OutcomeFollowsHistory(t: Tables, acts: seq<Act>, id: nat)
    ensures id < |Run(t, acts).attempts| ==> Run(t, acts).attempts[id].outcome == OutcomeOf(t, acts, id)
    ensures id >= |Run(t, acts).attempts| ==> OutcomeOf(t, acts, id) == None
  {
    hide ReconcileStatements;
    if acts != [] {
      var n := |acts| - 1;
      OutcomeFollowsHistory(t, acts[..n], id);
      if acts[n].Restart? { NothingStaysOpen(Run(t, acts[..n]), acts[n].now); }
    }
  }

  /** The latest report that reached attempt `id` at position `i` or later, or -1. */
  function LastReport(t: Tables, acts: seq<Act>, i: nat, id: nat): (k: int)
    ensures k == -1 || (i <= k < |acts| && acts[k].Report?)
  {
    if |acts| <= i then -1
    else
      var n := |acts| - 1;
      if Lands(Run(t, acts[..n]), acts[n], id) then n else LastReport(t, acts[..n], i, id)
  }

  lemma {:induction false} AttemptsStay(t: Tables, acts: seq<Act>, i: nat)
    requires i <= |acts|
    ensures |Run(t, acts[..i]).attempts| <= |Run(t, acts).attempts|
  {
    hide Step;
    if i == |acts| {
      assert acts[..i] == acts;
    } else {
      var n := |acts| - 1;
      assert acts[..n][..i] == acts[..i];
      AttemptsStay(t, acts[..n], i);
      StepKeepsRows(Run(t, acts[..n]), acts[n]);
    }
  }

  lemma StepKeepsRows(t: Tables, a: Act)
    ensures |t.attempts| <= |Step(t, a).attempts|
  {
    if a.Restart? { NothingStaysOpen(t, a.now); }
  }

  /** A recorded outcome survives a run exactly when the last report that reached the attempt afterwards, if
      there was one, repeats it. Restarts never change it. */
  lemma {:induction false} OutcomeSurvivesExactly(t: Tables, acts: seq<Act>, i: nat, id: nat)
    requires i <= |acts| && id < |Run(t, acts[..i]).attempts| && Run(t, acts[..i]).attempts[id].outcome.Some?
    ensures id < |Run(t, acts).attempts|
    ensures var k := LastReport(t, acts, i, id);
            && Run(t, acts).attempts[id].outcome
               == (if k >= 0 then Some(acts[k].outcome) else Run(t, acts[..i]).attempts[id].outcome)
            && (Run(t, acts).attempts[id].outcome == Run(t, acts[..i]).attempts[id].outcome
                <==> k < 0 || Some(acts[k].outcome) == Run(t, acts[..i]).attempts[id].outcome)
    decreases |acts|
  {
    hide Step, Lands;
    AttemptsStay(t, acts, i);
    if i == |acts| {
      assert acts[..i] == acts;
    } else {
      var n := |acts| - 1;
      var k := LastReport(t, acts[..n], i, id);
      assert acts[..n][..i] == acts[..i];
      assert k >= 0 ==> acts[..n][k] == acts[k];
      OutcomeSurvivesExactly(t, acts[..n], i, id);
      StepKeepsRecorded(Run(t, acts[..n]), acts[n], id);
    }
  }

  lemma StepKeepsRecorded(t: Tables, a: Act, id: nat)
    requires id < |t.attempts| && t.attempts[id].outcome.Some?
    ensures id < |Step(t, a).attempts|
    ensures Step(t, a).attempts[id].outcome == if Lands(t, a, id) then Some(a.outcome) else t.attempts[id].outcome
  {
    if a.Restart? { NothingStaysOpen(t, a.now); }
  }

  /** The report has no guard: a later report replaces an earlier outcome, even an ambiguous one. */
  lemma SecondReportOverwrites(t: Tables, id: nat, first: AttemptOutcome, second: AttemptOutcome, at: int)
    requires id < |t.attempts|
    ensures var t' := Step(Step(t, Report(id, first, None, at, 1)), Report(id, second, None, at, 1));
            t'.attempts[id].outcome == Some(second)
  {
  }
}
