/**
  The transactional fee store of crates/revops-db/src/fee_runway.rs: tables, the atomic
  cycle commit, its compare-and-set form, and the seed refusals.

  A disk fault is the number of the first statement of a call that the disk refuses
  (`failAt`); a call aborts at its first fault, so one number covers every fault pattern,
  and a number past the last statement means that no fault happens.
*/
module FeeStore {
  import opened Outcomes

  // ----- rows ---------------------------------------------------------------

  datatype StateRow = StateRow(channelId: string, json: string, lastUpdate: int)
  datatype StateEntry = StateEntry(generation: int, json: string, lastUpdate: int)
  datatype Action = Action(
    channelId: string, idempotencyKey: Option<string>, oldFeePpm: int, newFeePpm: int,
    feebaseMsat: int, htlcMin: Option<int>, htlcMax: Option<int>, message: string, at: int)
  datatype RequestRow = RequestRow(cycleId: string, action: Action)
  datatype Governor = Governor(
    channelId: string, authorized: bool, reasonCode: string, intentId: string, key: string, at: int)
  datatype Ledger = Ledger(
    channelId: string, eventType: string, intentId: string, key: string, snapshotId: string,
    at: int, details: string)
  datatype LedgerRow =
    | GovernorRow(cycleId: string, governor: Governor)
    | EventRow(cycleId: string, event: Ledger)
  datatype Outcome = Outcome(
    cycleTs: int, channelId: string, wouldBroadcast: bool, hasValues: bool,
    disposition: Option<string>, comparable: bool)
  datatype OutcomeRow = OutcomeRow(cycleId: string, outcome: Outcome)
  datatype Receipt = Receipt(
    triggerType: string, channelId: Option<string>, cycleTs: Option<int>, receivedAt: int,
    coalesced: bool, detail: Option<string>)
  datatype TriggerRow = TriggerRow(cycleId: string, receipt: Receipt)
  datatype SeedEvent = SeedEvent(outcome: string, seededAt: int, payloadSha256: string)
  /** Row ids are positions: the table only ever appends. */
  datatype SeedRow = SeedRow(event: SeedEvent, boundCycle: Option<string>, boundGeneration: Option<int>)
  datatype CycleRow = CycleRow(
    generation: int, startedAt: int, completedAt: int, sourceCommit: string,
    binarySha256: string, requestCount: int)

  datatype Commit = Commit(
    cycleId: string, startedAt: int, completedAt: int, sourceCommit: string, binarySha256: string,
    stateRows: seq<StateRow>, requests: seq<Action>, governor: seq<Governor>, ledger: seq<Ledger>,
    outcomes: seq<Outcome>, seed: Option<SeedEvent>, receipt: Option<Receipt>)

  datatype Tables = Tables(
    generation: Option<int>,
    state: map<string, StateEntry>,
    cycles: map<string, CycleRow>,
    requests: seq<RequestRow>,
    ledger: seq<LedgerRow>,
    outcomes: seq<OutcomeRow>,
    triggers: seq<TriggerRow>,
    seeds: seq<SeedRow>)

  const FRESH := Tables(None, map[], map[], [], [], [], [], [])

  // ----- schema constraints ---------------------------------------------------

  /** UNIQUE (cycle_id, channel_id) on the request table. */
  predicate RequestClash(rows: seq<RequestRow>, cycleId: string, channelId: string) {
    exists i :: 0 <= i < |rows| && rows[i].cycleId == cycleId && rows[i].action.channelId == channelId
  }

  /** UNIQUE (cycle_id, channel_id) on the outcome table. */
  predicate OutcomeClash(rows: seq<OutcomeRow>, cycleId: string, channelId: string) {
    exists i :: 0 <= i < |rows| && rows[i].cycleId == cycleId && rows[i].outcome.channelId == channelId
  }

  predicate HasSuccess(seeds: seq<SeedRow>) {
    exists i :: 0 <= i < |seeds| && seeds[i].event.outcome == "seeded"
  }

  /** What the foreign keys keep true of every file this module wrote. */
  ghost predicate Valid(t: Tables) {
    && (forall i :: 0 <= i < |t.requests| ==> t.requests[i].cycleId in t.cycles)
    && (forall i :: 0 <= i < |t.outcomes| ==> t.outcomes[i].cycleId in t.cycles)
  }

  function Generation(t: Tables): int {
    if t.generation.Some? then t.generation.value else 0
  }

  /** current_state_generation: what a reader is told. */
  function StateGeneration(t: Tables): nat {
    if Generation(t) > 0 then Generation(t) else 0
  }

  // ----- the effect of one landed commit -----------------------------------------

  function Upsert(state: map<string, StateEntry>, rows: seq<StateRow>, g: int): map<string, StateEntry> {
    if rows == [] then state
    else
      var r := rows[|rows| - 1];
      Upsert(state, rows[..|rows| - 1], g)[r.channelId := StateEntry(g, r.json, r.lastUpdate)]
  }

  function RequestRows(cycleId: string, actions: seq<Action>): (rows: seq<RequestRow>) {
    seq(|actions|, i requires 0 <= i < |actions| => RequestRow(cycleId, actions[i]))
  }

  function GovernorRows(cycleId: string, gs: seq<Governor>): seq<LedgerRow> {
    seq(|gs|, i requires 0 <= i < |gs| => GovernorRow(cycleId, gs[i]))
  }

  function EventRows(cycleId: string, ls: seq<Ledger>): seq<LedgerRow> {
    seq(|ls|, i requires 0 <= i < |ls| => EventRow(cycleId, ls[i]))
  }

  function OutcomeRows(cycleId: string, os: seq<Outcome>): seq<OutcomeRow> {
    seq(|os|, i requires 0 <= i < |os| => OutcomeRow(cycleId, os[i]))
  }

  /** Every table after commit `c` landed on `t`. */
  function Committed(t: Tables, c: Commit): Tables {
    var g := Generation(t) + 1;
    Tables(
      Some(g),
      Upsert(t.state, c.stateRows, g),
      t.cycles[c.cycleId := CycleRow(g, c.startedAt, c.completedAt, c.sourceCommit, c.binarySha256, |c.requests|)],
      t.requests + RequestRows(c.cycleId, c.requests),
      t.ledger + GovernorRows(c.cycleId, c.governor) + EventRows(c.cycleId, c.ledger),
      t.outcomes + OutcomeRows(c.cycleId, c.outcomes),
      if c.receipt.Some? then t.triggers + [TriggerRow(c.cycleId, c.receipt.value)] else t.triggers,
      if c.seed.Some? then t.seeds + [SeedRow(c.seed.value, Some(c.cycleId), Some(g))] else t.seeds)
  }

  predicate SeedAdmissible(t: Tables, c: Commit) {
    c.seed.Some? ==>
      && c.seed.value.outcome == "seeded"
      && Generation(t) == 0
      && !HasSuccess(t.seeds)
  }

  /** The constraints a commit has to meet: a new cycle id, one request and one outcome per
      channel, and seed provenance only on the step from generation 0 to 1. */
  predicate Admissible(t: Tables, c: Commit) {
    && c.cycleId !in t.cycles
    && (forall i, j :: 0 <= i < j < |c.requests| ==> c.requests[i].channelId != c.requests[j].channelId)
    && (forall i, j :: 0 <= i < j < |c.outcomes| ==> c.outcomes[i].channelId != c.outcomes[j].channelId)
    && SeedAdmissible(t, c)
  }

  /** The statements of commit_fee_cycle_locked, COMMIT included. */
  function LockedStatements(c: Commit): nat {
    4 + |c.stateRows| + |c.requests| + |c.governor| + |c.ledger| + |c.outcomes|
    + (if c.receipt.Some? then 1 else 0) + (if c.seed.Some? then 1 else 0)
  }

  predicate Lands(t: Tables, c: Commit, failAt: nat) {
    Admissible(t, c) && failAt >= 1 + LockedStatements(c)
  }

  predicate GuardedLands(t: Tables, c: Commit, expected: nat, failAt: nat) {
    StateGeneration(t) == expected && Admissible(t, c) && failAt >= 2 + LockedStatements(c)
  }

  function AfterCommit(t: Tables, c: Commit, failAt: nat): Tables {
    if Lands(t, c, failAt) then Committed(t, c) else t
  }

  function AfterGuarded(t: Tables, c: Commit, expected: nat, failAt: nat): Tables {
    if GuardedLands(t, c, expected, failAt) then Committed(t, c) else t
  }

  predicate RefusalLands(ev: SeedEvent, failAt: nat) {
    ev.outcome == "seed_refused" && failAt >= 1
  }

  function AfterRefusal(t: Tables, ev: SeedEvent, failAt: nat): Tables {
    if RefusalLands(ev, failAt) then t.(seeds := t.seeds + [SeedRow(ev, None, None)]) else t
  }

  datatype GuardedOutcome = Landed(generation: int) | GenerationConflict(expected: int, found: int)

  // ----- the store --------------------------------------------------------------

  class Store {
    var db: Tables

    constructor ()
      ensures db == FRESH && Valid(db)
    {
      db := FRESH;
    }

    method UpsertStateRows(rows: seq<StateRow>, g: int, at: nat, failAt: int) returns (ok: bool)
      modifies this
      ensures ok <==> !(at <= failAt < at + |rows|)
      ensures ok ==> db == old(db).(state := Upsert(old(db).state, rows, g))
    {
      for i := 0 to |rows|
        invariant !(at <= failAt < at + i)
        invariant db == old(db).(state := Upsert(old(db).state, rows[..i], g))
      {
        if at + i == failAt { return false; }
        var r := rows[i];
        db := db.(state := db.state[r.channelId := StateEntry(g, r.json, r.lastUpdate)]);
        assert rows[..i + 1][..i] == rows[..i];
      }
      assert rows[..|rows|] == rows;
      return true;
    }

    method InsertRequests(cycleId: string, actions: seq<Action>, at: nat, failAt: int) returns (ok: bool)
      requires forall i :: 0 <= i < |db.requests| ==> db.requests[i].cycleId != cycleId
      modifies this
      ensures ok <==>
              && !(at <= failAt < at + |actions|)
              && forall i, j :: 0 <= i < j < |actions| ==> actions[i].channelId != actions[j].channelId
      ensures ok ==> db == old(db).(requests := old(db).requests + RequestRows(cycleId, actions))
    {
      ghost var n := |db.requests|;
      for i := 0 to |actions|
        invariant !(at <= failAt < at + i)
        invariant forall j, k :: 0 <= j < k < i ==> actions[j].channelId != actions[k].channelId
        invariant db == old(db).(requests := old(db).requests + RequestRows(cycleId, actions[..i]))
      {
        if at + i == failAt { return false; }
        var r := actions[i];
        if RequestClash(db.requests, cycleId, r.channelId) {
          var k :| 0 <= k < |db.requests| && db.requests[k].cycleId == cycleId
                   && db.requests[k].action.channelId == r.channelId;
          assert actions[k - n].channelId == actions[i].channelId;
          return false;
        }
        forall j | 0 <= j < i ensures actions[j].channelId != r.channelId {
          assert db.requests[n + j] == RequestRow(cycleId, actions[j]);
        }
        db := db.(requests := db.requests + [RequestRow(cycleId, r)]);
        assert RequestRows(cycleId, actions[..i + 1]) == RequestRows(cycleId, actions[..i]) + [RequestRow(cycleId, r)];
      }
      assert actions[..|actions|] == actions;
      return true;
    }

    method InsertGovernor(cycleId: string, gs: seq<Governor>, at: nat, failAt: int) returns (ok: bool)
      modifies this
      ensures ok <==> !(at <= failAt < at + |gs|)
      ensures ok ==> db == old(db).(ledger := old(db).ledger + GovernorRows(cycleId, gs))
    {
      for i := 0 to |gs|
        invariant !(at <= failAt < at + i)
        invariant db == old(db).(ledger := old(db).ledger + GovernorRows(cycleId, gs[..i]))
      {
        if at + i == failAt { return false; }
        db := db.(ledger := db.ledger + [GovernorRow(cycleId, gs[i])]);
        assert GovernorRows(cycleId, gs[..i + 1]) == GovernorRows(cycleId, gs[..i]) + [GovernorRow(cycleId, gs[i])];
      }
      assert gs[..|gs|] == gs;
      return true;
    }

    method InsertEvents(cycleId: string, ls: seq<Ledger>, at: nat, failAt: int) returns (ok: bool)
      modifies this
      ensures ok <==> !(at <= failAt < at + |ls|)
      ensures ok ==> db == old(db).(ledger := old(db).ledger + EventRows(cycleId, ls))
    {
      for i := 0 to |ls|
        invariant !(at <= failAt < at + i)
        invariant db == old(db).(ledger := old(db).ledger + EventRows(cycleId, ls[..i]))
      {
        if at + i == failAt { return false; }
        db := db.(ledger := db.ledger + [EventRow(cycleId, ls[i])]);
        assert EventRows(cycleId, ls[..i + 1]) == EventRows(cycleId, ls[..i]) + [EventRow(cycleId, ls[i])];
      }
      assert ls[..|ls|] == ls;
      return true;
    }

    method InsertOutcomes(cycleId: string, os: seq<Outcome>, at: nat, failAt: int) returns (ok: bool)
      requires forall i :: 0 <= i < |db.outcomes| ==> db.outcomes[i].cycleId != cycleId
      modifies this
      ensures ok <==>
              && !(at <= failAt < at + |os|)
              && forall i, j :: 0 <= i < j < |os| ==> os[i].channelId != os[j].channelId
      ensures ok ==> db == old(db).(outcomes := old(db).outcomes + OutcomeRows(cycleId, os))
    {
      ghost var n := |db.outcomes|;
      for i := 0 to |os|
        invariant !(at <= failAt < at + i)
        invariant forall j, k :: 0 <= j < k < i ==> os[j].channelId != os[k].channelId
        invariant db == old(db).(outcomes := old(db).outcomes + OutcomeRows(cycleId, os[..i]))
      {
        if at + i == failAt { return false; }
        var r := os[i];
        if OutcomeClash(db.outcomes, cycleId, r.channelId) {
          var k :| 0 <= k < |db.outcomes| && db.outcomes[k].cycleId == cycleId
                   && db.outcomes[k].outcome.channelId == r.channelId;
          assert os[k - n].channelId == os[i].channelId;
          return false;
        }
        forall j | 0 <= j < i ensures os[j].channelId != r.channelId {
          assert db.outcomes[n + j] == OutcomeRow(cycleId, os[j]);
        }
        db := db.(outcomes := db.outcomes + [OutcomeRow(cycleId, r)]);
        assert OutcomeRows(cycleId, os[..i + 1]) == OutcomeRows(cycleId, os[..i]) + [OutcomeRow(cycleId, r)];
      }
      assert os[..|os|] == os;
      return true;
    }

    /** commit_fee_cycle_locked: on `Err` the tables may hold half a commit; the caller rolls back. */
    method CommitLocked(c: Commit, failAt: int) returns (r: Result<int>)
      requires Valid(db)
      modifies this
      ensures r.Ok? <==> Admissible(old(db), c) && !(0 <= failAt < LockedStatements(c))
      ensures r.Ok? ==> r.value == Generation(old(db)) + 1 && db == Committed(old(db), c)
    {
      if failAt == 0 { return Err; }
      var prior := Generation(db);
      var next := prior + 1;
      if failAt == 1 || c.cycleId in db.cycles { return Err; }
      db := db.(cycles := db.cycles[c.cycleId := CycleRow(next, c.startedAt, c.completedAt, c.sourceCommit,
                                                          c.binarySha256, |c.requests|)]);
      var at := 2;
      var ok := UpsertStateRows(c.stateRows, next, at, failAt);
      if !ok { return Err; }
      at := at + |c.stateRows|;
      ok := InsertRequests(c.cycleId, c.requests, at, failAt);
      if !ok { return Err; }
      at := at + |c.requests|;
      ok := InsertGovernor(c.cycleId, c.governor, at, failAt);
      if !ok { return Err; }
      at := at + |c.governor|;
      ok := InsertEvents(c.cycleId, c.ledger, at, failAt);
      if !ok { return Err; }
      at := at + |c.ledger|;
      ok := InsertOutcomes(c.cycleId, c.outcomes, at, failAt);
      if !ok { return Err; }
      at := at + |c.outcomes|;
      if failAt == at { return Err; }
      db := db.(generation := Some(next));
      at := at + 1;
      if c.receipt.Some? {
        if failAt == at { return Err; }
        db := db.(triggers := db.triggers + [TriggerRow(c.cycleId, c.receipt.value)]);
        at := at + 1;
      }
      if c.seed.Some? {
        if c.seed.value.outcome != "seeded" || prior != 0 || next != 1 { return Err; }
        if failAt == at || HasSuccess(db.seeds) { return Err; }
        db := db.(seeds := db.seeds + [SeedRow(c.seed.value, Some(c.cycleId), Some(next))]);
        at := at + 1;
      }
      if failAt == at { return Err; }
      return Ok(next);
    }

    /** commit_fee_cycle: BEGIN is statement 0; any failure restores the tables. */
    method CommitFeeCycle(c: Commit, failAt: nat) returns (r: Result<int>)
      requires Valid(db)
      modifies this
      ensures Valid(db)
      ensures r.Ok? <==> Lands(old(db), c, failAt)
      ensures r.Ok? ==> r.value == Generation(old(db)) + 1
      ensures db == AfterCommit(old(db), c, failAt)
    {
      if failAt == 0 { return Err; }
      var saved := db;
      r := CommitLocked(c, failAt - 1);
      if r.Err? { db := saved; }
    }

    /** commit_fee_cycle_guarded: the compare-and-set form. A conflict is reported in band. */
    method CommitFeeCycleGuarded(c: Commit, expected: nat, failAt: nat) returns (r: Result<GuardedOutcome>)
      requires Valid(db)
      modifies this
      ensures Valid(db)
      ensures r.Ok? && r.value.Landed? <==> GuardedLands(old(db), c, expected, failAt)
      ensures r.Ok? && r.value.Landed? ==> r.value.generation == Generation(old(db)) + 1
      ensures r.Ok? && r.value.GenerationConflict? <==> failAt >= 2 && StateGeneration(old(db)) != expected
      ensures r.Ok? && r.value.GenerationConflict? ==>
                r.value.expected == expected && r.value.found == StateGeneration(old(db))
      ensures db == AfterGuarded(old(db), c, expected, failAt)
    {
      if failAt < 2 { return Err; }
      var saved := db;
      var found := StateGeneration(db);
      if found != expected { return Ok(GenerationConflict(expected, found)); }
      var inner := CommitLocked(c, failAt - 2);
      match inner
      case Ok(g) => r := Ok(Landed(g));
      case Err =>
        db := saved;
        r := Err;
    }

    /** cycle_exists_with_generation: both answers are about one moment; the COMMIT's own failure is ignored. */
    method CycleExistsWithGeneration(cycleId: string, failAt: nat) returns (r: Result<(bool, nat)>)
      ensures r.Ok? <==> failAt >= 3
      ensures r.Ok? ==> r.value == (cycleId in db.cycles, StateGeneration(db))
    {
      if failAt < 3 { return Err; }
      r := Ok((cycleId in db.cycles, StateGeneration(db)));
    }

    /** record_seed_refusal: one statement, refusals only. */
    method RecordSeedRefusal(ev: SeedEvent, failAt: nat) returns (r: Result<nat>)
      requires Valid(db)
      modifies this
      ensures Valid(db)
      ensures r.Ok? <==> RefusalLands(ev, failAt)
      ensures r.Ok? ==> r.value == |old(db).seeds|
      ensures db == AfterRefusal(old(db), ev, failAt)
    {
      if ev.outcome != "seed_refused" || failAt == 0 { return Err; }
      r := Ok(|db.seeds|);
      db := db.(seeds := db.seeds + [SeedRow(ev, None, None)]);
    }
  }
}
