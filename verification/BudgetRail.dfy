/**
  The budget rail of crates/revops-db/src/budget.rs: reserve, settle, release and sweep over the
  reservation, legacy reservation, spend event and cost tables.

  `failAt` numbers the first statement of a call that sqlite refuses. BEGIN, COMMIT and every query
  count; a ROLLBACK always succeeds. A COMMIT that fails on the success path is NOT rolled back
  by the source: the transaction stays open on the connection, and the tables it started from
  stay in `open` until the connection is closed.
*/
module BudgetRail {
  import opened Outcomes
  import opened MapSums
  import opened Normal
  import opened Numbers

  datatype Meta = NoMeta | Json(text: string) | SettlementOf(rid: string)

  datatype Resv = Resv(
    category: string, subcategory: Option<string>, sats: int, at: int, reference: Option<string>,
    channel: Option<string>, status: string, meta: Meta)

  datatype Legacy = Legacy(sats: int, at: int, channel: string, status: string)

  datatype Event = Event(
    category: string, subcategory: Option<string>, sats: int, at: int, reference: Option<string>,
    channel: Option<string>, source: Option<string>, meta: Meta)

  datatype Cost = Cost(sats: int, at: int)

  datatype Tables = Tables(
    spend: map<string, Resv>, legacy: map<string, Legacy>, events: map<string, Event>, costs: seq<Cost>)

  /** What the connection sees, and the durable tables under a transaction left open. */
  datatype Conn = Conn(db: Tables, open: Option<Tables>)

  const ONCHAIN := {"channel_open", "channel_close", "boltz"}

  /** `meta` is the serialised metadata, `Err` when it cannot be serialised. */
  datatype ReserveRequest = ReserveRequest(
    reservationId: string, amountSats: int, category: string, subcategory: Option<string>,
    reference: Option<string>, channel: Option<string>, meta: Result<Meta>,
    budget: Option<int>, since: Option<int>, weeklyLimit: Option<int>, weeklySince: Option<int>)

  // ----- sums -------------------------------------------------------------------------------

  function Hold(status: string, sats: int): int { if status == "active" then sats else 0 }

  function SpendHolds(spend: map<string, Resv>): map<string, int> {
    map k | k in spend :: Hold(spend[k].status, spend[k].sats)
  }

  function LegacyHolds(legacy: map<string, Legacy>): map<string, int> {
    map k | k in legacy :: Hold(legacy[k].status, legacy[k].sats)
  }

  function Windowed(events: map<string, Event>, since: int): map<string, int> {
    map k | k in events :: if events[k].at >= since then events[k].sats else 0
  }

  function CostsSince(costs: seq<Cost>, since: int): int {
    if costs == [] then 0
    else
      var c := costs[|costs| - 1];
      CostsSince(costs[..|costs| - 1], since) + if c.at >= since then c.sats else 0
  }

  /** Active holds of both tables in full, plus costs and events of the window. */
  ghost function Total(t: Tables, since: int): int {
    Sum(SpendHolds(t.spend)) + Sum(LegacyHolds(t.legacy)) + CostsSince(t.costs, since) + Sum(Windowed(t.events, since))
  }

  // ----- reserve ------------------------------------------------------------------------------

  predicate WellFormed(q: ReserveRequest) {
    SanitizeAmount(q.amountSats) > 0 && Trim(q.reservationId) != "" && Category(q.category) != ""
  }

  function Since(q: ReserveRequest, now: int): int {
    if q.since.Some? then q.since.value else now - 24 * 3600
  }

  predicate IsTerminal(status: string) { status == "spent" || status == "released" }

  datatype Cap = Cap(limit: int, since: int)

  /** The caps a request names; the weekly one counts only with both of its parts. */
  datatype Caps = Uncapped | Daily(day: Cap) | Weekly(day: Cap, week: Cap)

  function CapsOf(q: ReserveRequest, now: int): Caps {
    if q.budget.None? then Uncapped
    else if q.weeklyLimit.None? || q.weeklySince.None? then Daily(Cap(q.budget.value, Since(q, now)))
    else Weekly(Cap(q.budget.value, Since(q, now)), Cap(q.weeklyLimit.value, q.weeklySince.value))
  }

  /** The amount an active row of the same id already holds; it is being replaced. */
  function Replaced(t: Tables, rid: string): int {
    if rid in t.spend then Hold(t.spend[rid].status, t.spend[rid].sats) else 0
  }

  /** What is left under `cap` once the replaced amount is set aside. */
  ghost function Room(t: Tables, cap: Cap, rid: string): int {
    cap.limit - (Total(t, cap.since) - Replaced(t, rid))
  }

  /** `queries` counts the SELECTs it took to decide. */
  datatype Decision = Decision(granted: bool, remaining: int, queries: nat)

  ghost function Decide(t: Tables, rid: string, amount: int, caps: Caps): Decision {
    if rid in t.spend && IsTerminal(t.spend[rid].status) then Decision(false, 0, 1)
    else
      var queries := if rid in t.spend && t.spend[rid].status == "active" then 2 else 1;
      if caps.Uncapped? then Decision(true, 0, queries)
      else
        var daily := Room(t, caps.day, rid);
        if amount > daily then Decision(false, daily, queries + 4)
        else if caps.Daily? then Decision(true, daily - amount, queries + 4)
        else
          var weekly := Room(t, caps.week, rid);
          if amount > weekly then Decision(false, weekly, queries + 6)
          else Decision(true, Min(daily - amount, weekly - amount), queries + 6)
  }

  ghost function DecisionOn(t: Tables, q: ReserveRequest, now: int): Decision {
    Decide(t, Trim(q.reservationId), SanitizeAmount(q.amountSats), CapsOf(q, now))
  }

  function Reserved(t: Tables, q: ReserveRequest, meta: Meta, now: int): Tables {
    t.(spend := t.spend[Trim(q.reservationId) := Resv(
      Category(q.category), q.subcategory, SanitizeAmount(q.amountSats), now, q.reference, q.channel, "active", meta)])
  }

  /** The state and answer of reserve_spend. */
  ghost function ReserveSpec(c: Conn, q: ReserveRequest, now: int, failAt: nat): (Conn, Result<(bool, int)>) {
    if !WellFormed(q) then (c, Ok((false, 0)))
    else if q.meta.Err? || c.open.Some? || failAt == 0 then (c, Err)
    else
      var d := DecisionOn(c.db, q, now);
      if failAt <= d.queries then (c, Err)
      else if !d.granted then
        if failAt == d.queries + 1 then (Conn(c.db, Some(c.db)), Err) else (c, Ok((false, d.remaining)))
      else if failAt == d.queries + 1 then (c, Err)
      else
        var db' := Reserved(c.db, q, q.meta.value, now);
        if failAt == d.queries + 2 then (Conn(db', Some(c.db)), Err)
        else (Conn(db', None), Ok((true, d.remaining)))
  }

  // ----- spend events ----------------------------------------------------------------------------

  /** What sqlite answers to one INSERT of an event: done, busy or locked, or another failure. */
  datatype Write = Done | Busy | Broken

  /** Three attempts; only a busy answer is retried. */
  predicate Persists(writes: seq<Write>, attempt: nat)
    decreases 3 - attempt
  {
    attempt < 3 &&
    (attempt >= |writes| || writes[attempt].Done? || (writes[attempt].Busy? && Persists(writes, attempt + 1)))
  }

  predicate EventRejected(id: string, e: Event) {
    Trim(id) == "" || Category(e.category) == "" || SanitizeAmount(e.sats) <= 0
  }

  function Recorded(t: Tables, id: string, e: Event): Tables {
    t.(events := t.events[Trim(id) := e.(category := Category(e.category), sats := SanitizeAmount(e.sats))])
  }

  // ----- settle -----------------------------------------------------------------------------------

  function Settlement(row: Resv, rid: string, actual: Option<int>, source: Option<string>, now: int): Event {
    Event(row.category, row.subcategory,
          SanitizeAmount(if actual.Some? then actual.value else row.sats), now, row.reference, row.channel,
          Some(if source.Some? then source.value else "reservation_settlement"), SettlementOf(rid))
  }

  /** The state and answer of mark_spend_reservation_spent: BEGIN, SELECT, UPDATE, event, COMMIT. */
  function SettleSpec(c: Conn, id: string, actual: Option<int>, source: Option<string>, record: bool, now: int,
                      writes: seq<Write>, failAt: nat): (Conn, Result<bool>) {
    var rid := Trim(id);
    if rid == "" then (c, Ok(false))
    else if c.open.Some? || failAt <= 1 then (c, Err)
    else if rid !in c.db.spend then
      if failAt == 2 then (Conn(c.db, Some(c.db)), Err) else (c, Ok(false))
    else if failAt == 2 then (c, Err)
    else
      var row := c.db.spend[rid];
      if row.status != "active" then
        if failAt == 3 then (Conn(c.db, Some(c.db)), Err) else (c, Ok(false))
      else
        var flipped := c.db.(spend := c.db.spend[rid := row.(status := "spent")]);
        var e := Settlement(row, rid, actual, source, now);
        if record && EventRejected(SettlementId(rid), e) then (c, Ok(false))
        else if record && !Persists(writes, 0) then (c, Err)
        else
          var db' := if record then Recorded(flipped, SettlementId(rid), e) else flipped;
          if failAt == 3 then (Conn(db', Some(c.db)), Err) else (Conn(db', None), Ok(true))
  }

  // ----- releases and sweeps ------------------------------------------------------------------------

  function ReleaseSpend(t: Tables, ids: set<string>): Tables {
    t.(spend := map k | k in t.spend ::
      if k in ids && t.spend[k].status == "active" then t.spend[k].(status := "released") else t.spend[k])
  }

  function FlipLegacy(t: Tables, ids: set<string>, status: string): Tables {
    t.(legacy := map k | k in t.legacy ::
      if k in ids && t.legacy[k].status == "active" then t.legacy[k].(status := status) else t.legacy[k])
  }

  function ActiveSpend(t: Tables): set<string> { set k | k in t.spend && t.spend[k].status == "active" }

  function ActiveLegacy(t: Tables): set<string> { set k | k in t.legacy && t.legacy[k].status == "active" }

  /** The unified rows a stale sweep reaches: every category when one is named, otherwise none of the
      committed on-chain categories. */
  function StaleSpend(t: Tables, category: Option<string>, cutoff: int): set<string> {
    set k | k in ActiveSpend(t) && t.spend[k].at < cutoff
            && (if category.Some? then t.spend[k].category == Category(category.value) else t.spend[k].category !in ONCHAIN)
  }

  function StaleRebalance(t: Tables, cutoff: int, pending: set<string>): set<string> {
    set k | k in ActiveSpend(t) && t.spend[k].category == "rebalance" && t.spend[k].at < cutoff && k !in pending
  }

  function StaleLegacy(t: Tables, cutoff: int, pending: set<string>): set<string> {
    set k | k in ActiveLegacy(t) && t.legacy[k].at < cutoff && k !in pending
  }

  // ----- the connection after each call that is not a reserve or a settle ---------------------------

  function AfterEvent(c: Conn, id: string, e: Event, writes: seq<Write>): Conn {
    if EventRejected(id, e) || !Persists(writes, 0) then c else c.(db := Recorded(c.db, id, e))
  }

  function AfterRelease(c: Conn, id: string, failAt: nat): Conn {
    if failAt == 0 then c else c.(db := ReleaseSpend(c.db, {id}))
  }

  function AfterReleaseBudget(c: Conn, id: string, failAt: nat): Conn {
    if failAt == 0 then c
    else if id in ActiveSpend(c.db) then c.(db := ReleaseSpend(c.db, {id}))
    else if failAt == 1 then c
    else c.(db := FlipLegacy(c.db, {id}, "released"))
  }

  /** mark_budget_spent's answer: the unified table's unless it settled nothing there, then the legacy table's. */
  function MarkBudgetAnswer(c: Conn, id: string, actual: int, failAt: nat, legacyFails: bool): Result<bool> {
    var (c', r) := SettleSpec(c, id, Some(actual), None, false, 0, [], failAt);
    if r.Err? || r.value then r else if legacyFails then Err else Ok(id in ActiveLegacy(c'.db))
  }

  function AfterMarkBudget(c: Conn, id: string, actual: int, failAt: nat, legacyFails: bool): Conn {
    var (c', r) := SettleSpec(c, id, Some(actual), None, false, 0, [], failAt);
    if r.Err? || r.value || legacyFails then c' else c'.(db := FlipLegacy(c'.db, {id}, "spent"))
  }

  function AfterCleanup(c: Conn, cutoff: int, pending: Option<set<string>>, failAt: nat): Conn {
    if failAt == 0 || pending.None? then c
    else
      var legacy := FlipLegacy(c.db, StaleLegacy(c.db, cutoff, pending.value), "released");
      c.(db := if failAt == 1 then legacy else ReleaseSpend(legacy, StaleRebalance(c.db, cutoff, pending.value)))
  }

  function AfterSpendCleanup(c: Conn, cutoff: int, category: Option<string>, failAt: nat): Conn {
    if failAt == 0 then c else c.(db := ReleaseSpend(c.db, StaleSpend(c.db, category, cutoff)))
  }

  function AfterClear(c: Conn, failAt: nat): Conn {
    if c.open.Some? || failAt <= 3 then c else c.(db := FlipLegacy(c.db, ActiveLegacy(c.db), "released"))
  }

  function Reopened(c: Conn): Conn { Conn(if c.open.Some? then c.open.value else c.db, None) }

  datatype ClearStats = ClearStats(clearedCount: int, releasedSats: int)

  class BudgetDb {
    var c: Conn

    constructor (t: Tables)
      ensures c == Conn(t, None)
    {
      c := Conn(t, None);
    }

    /** Closing the connection discards a transaction left open. */
    method Reopen()
      modifies this
      ensures c == Reopened(old(c))
    {
      if c.open.Some? { c := Conn(c.open.value, None); }
    }

    method TotalSince(since: int) returns (total: int)
      ensures total == Total(c.db, since)
    {
      var spend := SumOf(SpendHolds(c.db.spend));
      var legacy := SumOf(LegacyHolds(c.db.legacy));
      var events := SumOf(Windowed(c.db.events, since));
      return spend + legacy + CostsSince(c.db.costs, since) + events;
    }

    /** reserve_spend_body up to the insert. */
    method Evaluate(rid: string, amount: int, caps: Caps) returns (d: Decision)
      ensures d == Decide(c.db, rid, amount, caps)
    {
      var existing, queries := 0, 1;
      if rid in c.db.spend {
        var row := c.db.spend[rid];
        if IsTerminal(row.status) { return Decision(false, 0, queries); }
        if row.status == "active" { existing, queries := row.sats, queries + 1; }
      }
      if caps.Uncapped? { return Decision(true, 0, queries); }
      var total := TotalSince(caps.day.since);
      var daily := caps.day.limit - (total - existing);
      queries := queries + 4;
      if amount > daily { return Decision(false, daily, queries); }
      var after := daily - amount;
      if caps.Weekly? {
        var weeklyTotal := TotalSince(caps.week.since);
        var weekly := caps.week.limit - (weeklyTotal - existing);
        queries := queries + 2;
        if amount > weekly { return Decision(false, weekly, queries); }
        after := Min(after, weekly - amount);
      }
      return Decision(true, after, queries);
    }

    method ReserveSpend(q: ReserveRequest, now: int, failAt: nat) returns (r: Result<(bool, int)>)
      modifies this
      ensures (c, r) == ReserveSpec(old(c), q, now, failAt)
    {
      if !WellFormed(q) { return Ok((false, 0)); }
      if q.meta.Err? { return Err; }
      if c.open.Some? || failAt == 0 { return Err; }
      var saved := c.db;
      var d := Evaluate(Trim(q.reservationId), SanitizeAmount(q.amountSats), CapsOf(q, now));
      if failAt <= d.queries { return Err; }
      var commitAt := d.queries + 1;
      if d.granted {
        if failAt == commitAt { return Err; }
        c := c.(db := Reserved(c.db, q, q.meta.value, now));
        commitAt := commitAt + 1;
      }
      if failAt == commitAt {
        c := c.(open := Some(saved));
        return Err;
      }
      return Ok((d.granted, d.remaining));
    }

    /** record_spend_event_on: `Ok(false)` is a rejected event, `Err` metadata that cannot be serialised or a
        write that did not persist. */
    method RecordEventOn(id: string, e: Event, serialised: bool, writes: seq<Write>) returns (r: Result<bool>)
      modifies this
      ensures r == if EventRejected(id, e) then Ok(false) else if serialised && Persists(writes, 0) then Ok(true) else Err
      ensures c == if serialised then AfterEvent(old(c), id, e, writes) else old(c)
    {
      if EventRejected(id, e) { return Ok(false); }
      if !serialised { return Err; }
      var attempt := 0;
      while attempt < 3
        invariant attempt <= 3 && c == old(c)
        invariant Persists(writes, 0) == Persists(writes, attempt)
      {
        if attempt >= |writes| || writes[attempt].Done? {
          c := c.(db := Recorded(c.db, id, e));
          return Ok(true);
        }
        if writes[attempt].Broken? { return Err; }
        attempt := attempt + 1;
      }
      return Err;
    }

    method MarkSpendReservationSpent(
        id: string, actual: Option<int>, source: Option<string>, record: bool, now: int,
        writes: seq<Write>, failAt: nat) returns (r: Result<bool>)
      modifies this
      ensures (c, r) == SettleSpec(old(c), id, actual, source, record, now, writes, failAt)
    {
      var rid := Trim(id);
      if rid == "" { return Ok(false); }
      if c.open.Some? || failAt <= 1 { return Err; }
      var saved := c;
      var commitAt := 2;
      var changed := false;
      if rid in c.db.spend {
        if failAt == 2 { return Err; }
        commitAt := 3;
        var row := c.db.spend[rid];
        changed := row.status == "active";
        if changed {
          c := c.(db := c.db.(spend := c.db.spend[rid := row.(status := "spent")]));
          if record {
            var written := RecordEventOn(SettlementId(rid), Settlement(row, rid, actual, source, now), true, writes);
            if written != Ok(true) {
              c := saved;
              return written;
            }
          }
        }
      }
      if failAt == commitAt {
        c := c.(open := Some(saved.db));
        return Err;
      }
      return Ok(changed);
    }

    /** A single autocommit UPDATE; the id is used as given, not trimmed. */
    method ReleaseSpendReservation(id: string, failAt: nat) returns (r: Result<bool>)
      modifies this
      ensures r == if failAt == 0 then Err else Ok(id in ActiveSpend(old(c).db))
      ensures c == AfterRelease(old(c), id, failAt)
    {
      if failAt == 0 { return Err; }
      r := Ok(id in ActiveSpend(c.db));
      c := c.(db := ReleaseSpend(c.db, {id}));
    }

    /** Unified ledger first, then the legacy table. */
    method ReleaseBudgetReservation(id: string, failAt: nat) returns (r: Result<bool>)
      modifies this
      ensures r == if failAt == 0 then Err
                   else if id in ActiveSpend(old(c).db) then Ok(true)
                   else if failAt == 1 then Err
                   else Ok(id in ActiveLegacy(old(c).db))
      ensures c == AfterReleaseBudget(old(c), id, failAt)
    {
      var unified := ReleaseSpendReservation(id, failAt);
      if unified.Err? || unified.value {
        return unified;
      }
      assert c.db.spend == old(c).db.spend;
      if failAt == 1 { return Err; }
      r := Ok(id in ActiveLegacy(c.db));
      c := c.(db := FlipLegacy(c.db, {id}, "released"));
    }

    /** mark_budget_spent: settle without an event, then the legacy table. */
    method MarkBudgetSpent(id: string, actual: int, failAt: nat, legacyFails: bool) returns (r: Result<bool>)
      modifies this
      ensures r == MarkBudgetAnswer(old(c), id, actual, failAt, legacyFails)
      ensures c == AfterMarkBudget(old(c), id, actual, failAt, legacyFails)
    {
      r := MarkSpendReservationSpent(id, Some(actual), None, false, 0, [], failAt);
      if r.Err? || r.value { return; }
      if legacyFails { return Err; }
      r := Ok(id in ActiveLegacy(c.db));
      c := c.(db := FlipLegacy(c.db, {id}, "spent"));
    }

    /** cleanup_stale_reservations. `pending` lists the parked rebalances, `None` when that table is
        missing; a sqlite failure of the second UPDATE is tolerated. */
    method CleanupStaleReservations(maxAge: int, pending: Option<set<string>>, now: int, failAt: nat)
      returns (r: Result<int>)
      modifies this
      ensures r.Ok? <==> failAt >= 1 && pending.Some?
      ensures r.Ok? ==>
                r.value == |StaleLegacy(old(c).db, now - maxAge, pending.value)|
                           + if failAt == 1 then 0 else |StaleRebalance(old(c).db, now - maxAge, pending.value)|
      ensures c == AfterCleanup(old(c), now - maxAge, pending, failAt)
    {
      if failAt == 0 || pending.None? { return Err; }
      var cutoff := now - maxAge;
      var legacy := StaleLegacy(c.db, cutoff, pending.value);
      c := c.(db := FlipLegacy(c.db, legacy, "released"));
      var count := |legacy|;
      if failAt != 1 {
        var spend := StaleRebalance(c.db, cutoff, pending.value);
        c := c.(db := ReleaseSpend(c.db, spend));
        count := count + |spend|;
      }
      return Ok(count);
    }

    method CleanupStaleSpendReservations(maxAge: int, category: Option<string>, now: int, failAt: nat)
      returns (r: Result<int>)
      modifies this
      ensures r == if failAt == 0 then Err else Ok(|StaleSpend(old(c).db, category, now - maxAge)|)
      ensures c == AfterSpendCleanup(old(c), now - maxAge, category, failAt)
    {
      if failAt == 0 { return Err; }
      var stale := StaleSpend(c.db, category, now - maxAge);
      c := c.(db := ReleaseSpend(c.db, stale));
      return Ok(|stale|);
    }

    /** clear_all_reservations: COMMIT is inside the guarded block, so every failure rolls back. */
    method ClearAllReservations(failAt: nat) returns (r: Result<ClearStats>)
      modifies this
      ensures r.Ok? <==> old(c).open.None? && failAt >= 4
      ensures r.Ok? ==> r.value == ClearStats(|ActiveLegacy(old(c).db)|, Sum(LegacyHolds(old(c).db.legacy)))
      ensures c == AfterClear(old(c), failAt)
    {
      if c.open.Some? || failAt == 0 { return Err; }
      var saved := c;
      if failAt == 1 { return Err; }
      var count := |ActiveLegacy(c.db)|;
      var released := SumOf(LegacyHolds(c.db.legacy));
      if failAt == 2 { return Err; }
      c := c.(db := FlipLegacy(c.db, ActiveLegacy(c.db), "released"));
      if failAt == 3 { c := saved; return Err; }
      return Ok(ClearStats(count, released));
    }
  }
}
