/**
  Loop-health rows of crates/revops-db/src/loop_health.rs: generations, terminals and the verdict a
  given process may report. Generations are unbounded; the i64 conversions of arguments are explicit.
*/
module LoopHealth {
  import opened BoundedText
  import opened Outcomes

  type Text = s: seq<Byte> | Utf8(s)

  const I64_MAX := 0x7FFF_FFFF_FFFF_FFFF

  datatype LoopId = FlowAnalysis | Fee | Rebalance | StartupSnapshot | FinancialSnapshot | Boltz | Planner | LnPlus
  datatype Wiring = NotWired | Ready
  datatype Runtime = Active | Suspended
  datatype Terminal = NoTerminal | Passed | Failed

  datatype Row = Row(
    wiring: Wiring, generation: nat, terminalGeneration: nat, terminal: Terminal, runtime: Runtime,
    suspendedAt: Option<int>, suspensionReason: Option<Text>, startedAt: Option<int>, passedAt: Option<int>,
    errorAt: Option<int>, error: Option<Text>, coalesced: nat, dropped: nat, updatedAt: int,
    boot: Option<string>, terminalBoot: Option<string>)

  type Rows = map<LoopId, Row>

  const RESTART_ERROR: string := "previous_generation_incomplete_on_restart"

  function Ascii(s: string): (t: Text)
    ensures |t| == |s|
  {
    if s == [] then [] else
      var head: Byte := if s[0] as int < 0x80 then s[0] as int else 0x3F;
      var tail := Ascii(s[1..]);
      assert ([head] + tail)[1..] == tail;
      [head] + tail
  }

  // ----- the statements ----------------------------------------------------------------------------------

  function Registered(rows: Rows, id: LoopId, wiring: Wiring, now: int): Rows {
    if id in rows then
      rows[id := rows[id].(wiring := wiring, runtime := if wiring == Ready then Active else rows[id].runtime, updatedAt := now)]
    else
      rows[id := Row(wiring, 0, 0, NoTerminal, Active, None, None, None, None, None, None, 0, 0, now, None, None)]
  }

  predicate MayBegin(rows: Rows, id: LoopId) {
    id in rows && rows[id].wiring == Ready && rows[id].runtime == Active
  }

  function Begun(rows: Rows, id: LoopId, boot: string, now: int): Rows
    requires id in rows
  {
    var r := rows[id];
    rows[id := r.(generation := r.generation + 1, startedAt := Some(now), updatedAt := now, boot := Some(boot))]
  }

  /** The WHERE of a terminal update: the current generation, and no terminal for it yet. */
  predicate Open(rows: Rows, id: LoopId, generation: nat) {
    id in rows && rows[id].generation == generation && rows[id].terminalGeneration < generation <= I64_MAX
  }

  function Terminated(rows: Rows, id: LoopId, generation: nat, boot: string, at: int, error: Option<Text>): Rows
    requires id in rows
  {
    var r := rows[id].(terminalGeneration := generation, updatedAt := at, terminalBoot := Some(boot));
    rows[id := if error.None? then r.(passedAt := Some(at), terminal := Passed)
               else r.(errorAt := Some(at), error := error, terminal := Failed)]
  }

  function Pressured(rows: Rows, id: LoopId, coalesced: nat, dropped: nat, now: int): Rows
    requires id in rows
  {
    var r := rows[id];
    rows[id := r.(coalesced := r.coalesced + coalesced, dropped := r.dropped + dropped, updatedAt := now)]
  }

  function SuspendedAt(rows: Rows, id: LoopId, at: int, reason: Text): Rows
    requires id in rows
  {
    rows[id := rows[id].(runtime := Suspended, suspendedAt := Some(at), suspensionReason := Some(reason), updatedAt := at)]
  }

  predicate Incomplete(r: Row) { r.generation > r.terminalGeneration }

  function Closed(r: Row, now: int): Row {
    if Incomplete(r) then
      r.(errorAt := Some(now), error := Some(Ascii(RESTART_ERROR)), terminalGeneration := r.generation,
         terminal := Failed, updatedAt := now)
    else r
  }

  function Reconciled(rows: Rows, now: int): Rows { map id | id in rows :: Closed(rows[id], now) }

  function IncompleteIds(rows: Rows): set<LoopId> { set id | id in rows && Incomplete(rows[id]) }

  // ----- the verdict -------------------------------------------------------------------------------------

  datatype Verdict = VNotWired | VSuspended | VIncomplete | VPassed | VError | VNeverRunThisBoot

  function CurrentBootStatus(r: Row, boot: string): Verdict {
    if r.wiring != Ready then VNotWired
    else if r.runtime == Suspended then VSuspended
    else if Incomplete(r) then (if r.boot == Some(boot) then VIncomplete else VNeverRunThisBoot)
    else if r.terminalBoot != Some(boot) then VNeverRunThisBoot
    else match r.terminal
      case Passed => VPassed
      case Failed => VError
      case NoTerminal => VNeverRunThisBoot
  }

  /** The rust_loop_health table. An error leaves it as it was. `refused` is a disk that refuses the one statement. */
  class HealthTable {
    var rows: Rows

    constructor ()
      ensures rows == map[]
    {
      rows := map[];
    }

    method RegisterLoop(id: LoopId, wiring: Wiring, now: int, refused: bool) returns (r: Result<()>)
      modifies this
      ensures r.Ok? <==> !refused
      ensures rows == if r.Ok? then Registered(old(rows), id, wiring, now) else old(rows)
    {
      if refused { return Err; }
      if id !in rows {
        rows := rows[id := Row(wiring, 0, 0, NoTerminal, Active, None, None, None, None, None, None, 0, 0, now, None, None)];
      } else {
        var row := rows[id];
        var runtime := if wiring == Ready then Active else row.runtime;
        rows := rows[id := row.(wiring := wiring, runtime := runtime, updatedAt := now)];
      }
      r := Ok(());
    }

    /** One transaction of select, update, select, commit; `failAt` is the first one the disk refuses. */
    method BeginLoopPass(id: LoopId, boot: string, now: int, failAt: nat) returns (r: Result<nat>)
      modifies this
      ensures r.Ok? <==> MayBegin(old(rows), id) && failAt >= 4
      ensures r.Ok? ==> rows == Begun(old(rows), id, boot, now) && r.value == rows[id].generation
      ensures r.Err? ==> rows == old(rows)
    {
      if failAt == 0 || id !in rows { return Err; }
      if rows[id].wiring != Ready || rows[id].runtime != Active { return Err; }
      if failAt == 1 { return Err; }
      var saved := rows;
      var row := rows[id];
      rows := rows[id := row.(generation := row.generation + 1, startedAt := Some(now), updatedAt := now, boot := Some(boot))];
      if failAt < 4 {
        rows := saved;
        return Err;
      }
      r := Ok(rows[id].generation);
    }

    method FinishLoopPass(id: LoopId, generation: nat, boot: string, at: int, refused: bool) returns (r: Result<()>)
      modifies this
      ensures r.Ok? <==> !refused && Open(old(rows), id, generation)
      ensures rows == if r.Ok? then Terminated(old(rows), id, generation, boot, at, None) else old(rows)
    {
      r := TerminalUpdate(id, generation, boot, at, None, refused);
    }

    method FailLoopPass(id: LoopId, generation: nat, boot: string, at: int, error: Text, refused: bool)
      returns (r: Result<()>)
      modifies this
      ensures r.Ok? <==> !refused && Open(old(rows), id, generation)
      ensures r.Err? ==> rows == old(rows)
      ensures r.Ok? ==> exists kept: Text :: LongestCut(error, kept)
                                              && rows == Terminated(old(rows), id, generation, boot, at, Some(kept))
    {
      var kept := Bounded(error);
      r := TerminalUpdate(id, generation, boot, at, Some(kept), refused);
    }

    method TerminalUpdate(id: LoopId, generation: nat, boot: string, at: int, error: Option<Text>, refused: bool)
      returns (r: Result<()>)
      modifies this
      ensures r.Ok? <==> !refused && Open(old(rows), id, generation)
      ensures rows == if r.Ok? then Terminated(old(rows), id, generation, boot, at, error) else old(rows)
    {
      if generation > I64_MAX || refused { return Err; }
      var changed := 0;
      if id in rows && rows[id].generation == generation && rows[id].terminalGeneration < generation {
        var row := rows[id];
        match error {
          case None =>
            row := row.(passedAt := Some(at), terminalGeneration := generation, terminal := Passed);
          case Some(text) =>
            row := row.(errorAt := Some(at), error := Some(text), terminalGeneration := generation, terminal := Failed);
        }
        rows := rows[id := row.(updatedAt := at, terminalBoot := Some(boot))];
        changed := 1;
      }
      r := if changed != 1 then Err else Ok(());
    }

    method IncrementLoopBackpressure(id: LoopId, coalesced: nat, dropped: nat, now: int, refused: bool)
      returns (r: Result<()>)
      modifies this
      ensures r.Ok? <==> !refused && id in old(rows) && coalesced <= I64_MAX && dropped <= I64_MAX
      ensures rows == if r.Ok? then Pressured(old(rows), id, coalesced, dropped, now) else old(rows)
    {
      if coalesced > I64_MAX || dropped > I64_MAX || refused || id !in rows { return Err; }
      var row := rows[id];
      rows := rows[id := row.(coalesced := row.coalesced + coalesced, dropped := row.dropped + dropped, updatedAt := now)];
      r := Ok(());
    }

    method SuspendLoop(id: LoopId, at: int, reason: Text, refused: bool) returns (r: Result<()>)
      modifies this
      ensures r.Ok? <==> !refused && id in old(rows)
      ensures r.Err? ==> rows == old(rows)
      ensures r.Ok? ==> exists kept: Text :: LongestCut(reason, kept)
                                              && rows == SuspendedAt(old(rows), id, at, kept)
    {
      if refused || id !in rows { return Err; }
      var kept := Bounded(reason);
      rows := rows[id := rows[id].(runtime := Suspended, suspendedAt := Some(at), suspensionReason := Some(kept), updatedAt := at)];
      r := Ok(());
    }

    /** The scan of the restart UPDATE; the count is the rows it changed. */
    method ReconcileIncompleteOnRestart(now: int, refused: bool) returns (r: Result<nat>)
      modifies this
      ensures r.Ok? <==> !refused
      ensures r.Ok? ==> rows == Reconciled(old(rows), now) && r.value == |IncompleteIds(old(rows))|
      ensures r.Err? ==> rows == old(rows)
    {
      hide Closed, Incomplete;
      if refused { return Err; }
      ghost var before := rows;
      var count := 0;
      var left := rows.Keys;
      ghost var done: set<LoopId> := {};
      assert IncompleteAmong(before, done) == {};
      while left != {}
        invariant left <= before.Keys && done == before.Keys - left && rows.Keys == before.Keys
        invariant forall id :: id in before ==> rows[id] == if id in done then Closed(before[id], now) else before[id]
        invariant count == |IncompleteAmong(before, done)|
        decreases |left|
      {
        var id :| id in left;
        CountOneMore(before, done, id);
        if Incomplete(rows[id]) { count := count + 1; }
        var row := CloseRow(rows[id], now);
        rows := rows[id := row];
        left := left - {id};
        done := done + {id};
      }
      assert IncompleteIds(before) == IncompleteAmong(before, done);
      r := Ok(count);
    }
  }

  /** One row of that UPDATE. */
  method CloseRow(row: Row, now: int) returns (r: Row)
    ensures r == Closed(row, now)
  {
    r := row;
    if row.generation > row.terminalGeneration {
      r := r.(terminalGeneration := row.generation, terminal := Failed);
      r := r.(errorAt := Some(now), error := Some(Ascii(RESTART_ERROR)), updatedAt := now);
    }
  }

  ghost function IncompleteAmong(rows: Rows, ids: set<LoopId>): set<LoopId> {
    set id | id in ids && id in rows && Incomplete(rows[id])
  }

  lemma CountOneMore(rows: Rows, done: set<LoopId>, id: LoopId)
    requires id in rows && id !in done
    ensures |IncompleteAmong(rows, done + {id})| == |IncompleteAmong(rows, done)| + if Incomplete(rows[id]) then 1 else 0
  {
    hide Incomplete;
    assert IncompleteAmong(rows, done + {id}) == IncompleteAmong(rows, done) + if Incomplete(rows[id]) then {id} else {};
  }
}
