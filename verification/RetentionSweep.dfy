/**
  The bounded, fair retention sweep of crates/revops-db/src/fee_runway.rs: four tables in a round
  robin, at most 500 rows a batch and eight non-empty batches a sweep, resumed by a cursor.
*/
module RetentionSweep {
  import opened Outcomes
  import opened Numbers

  const RETENTION_SECONDS := 30 * 86_400
  const KEEP_LAST: nat := 90
  const BATCH_ROWS: nat := 500
  const MAX_BATCHES: nat := 8
  const I64_MIN := -0x8000_0000_0000_0000

  /** Row id to the timestamp the table is swept by. */
  type Rows = map<nat, int>

  /** The three timestamped tables in sweep order, then the snapshot ids in ascending order. */
  datatype Tables = Tables(dated: seq<Rows>, snapshots: seq<nat>)

  ghost predicate Valid(t: Tables) { |t.dated| == 3 }

  function SaturatingSub(a: int, b: int): int {
    if a - b < I64_MIN then I64_MIN else a - b
  }

  function Expired(rows: Rows, horizon: int): set<nat> {
    set id | id in rows && rows[id] < horizon
  }

  /** How many rows of each table may be deleted. */
  function Eligible(t: Tables, horizon: int): (e: seq<nat>)
    requires Valid(t)
    ensures |e| == 4
  {
    [|Expired(t.dated[0], horizon)|, |Expired(t.dated[1], horizon)|, |Expired(t.dated[2], horizon)|,
     if |t.snapshots| > KEEP_LAST then |t.snapshots| - KEEP_LAST else 0]
  }

  /** ORDER BY key ASC, id ASC. */
  predicate Before(rows: Rows, a: nat, b: nat)
    requires a in rows && b in rows
  {
    rows[a] < rows[b] || (rows[a] == rows[b] && a <= b)
  }

  // ----- the round robin on counts ---------------------------------------------------------

  datatype State = State(e: seq<nat>, counts: seq<nat>, index: nat, batches: nat, empty: nat, cursor: nat)

  ghost predicate Good(s: State) {
    |s.e| == 4 && |s.counts| == 4 && s.index < 4
  }

  function Start(e: seq<nat>, cursor: nat): State {
    State(e, [0, 0, 0, 0], cursor % 4, 0, 0, cursor)
  }

  /** One turn of the loop: an empty batch, or a batch of up to 500 rows. */
  function Turn(s: State): (s': State)
    requires Good(s)
    ensures Good(s')
  {
    var d := Min(BATCH_ROWS, s.e[s.index]);
    var next := (s.index + 1) % 4;
    if d == 0 then s.(empty := s.empty + 1, index := next)
    else State(s.e[s.index := s.e[s.index] - d], s.counts[s.index := s.counts[s.index] + 1],
               next, s.batches + 1, 0, next)
  }

  function Loop(s: State, cap: nat): (r: State)
    requires Good(s)
    ensures Good(r)
    decreases if s.batches < cap then cap - s.batches else 0, if s.empty < 4 then 4 - s.empty else 0
  {
    if s.batches < cap && s.empty < 4 then Loop(Turn(s), cap) else s
  }

  /** How many turns the loop takes from `s`. */
  function TurnsFrom(s: State, cap: nat): nat
    requires Good(s)
    decreases if s.batches < cap then cap - s.batches else 0, if s.empty < 4 then 4 - s.empty else 0
  {
    if s.batches < cap && s.empty < 4 then 1 + TurnsFrom(Turn(s), cap) else 0
  }

  /** What one sweep does to the counts. */
  function Sweep(e: seq<nat>, cursor: nat): (r: State)
    requires |e| == 4
    ensures Good(r)
  {
    Loop(Start(e, cursor), MAX_BATCHES)
  }

  // ----- the sweep on rows -------------------------------------------------------------------

  datatype Report = Report(deleted: seq<nat>, truncated: bool, batches: nat, nextCursor: nat)

  /** Rows went only from `t`, oldest first, and none that the policy protects. */
  ghost predicate Pruned(t: Tables, t': Tables, horizon: int) {
    && Valid(t) && Valid(t')
    && (forall k :: 0 <= k < 3 ==> PrunedRows(t.dated[k], t'.dated[k], horizon))
    && |t'.snapshots| <= |t.snapshots|
    && t'.snapshots == t.snapshots[|t.snapshots| - |t'.snapshots|..]
    && |t'.snapshots| >= Min(KEEP_LAST, |t.snapshots|)
  }

  ghost predicate PrunedRows(rows: Rows, rows': Rows, horizon: int) {
    && (forall id :: id in rows' ==> id in rows && rows'[id] == rows[id])
    && (forall a :: a in rows && a !in rows' ==> rows[a] < horizon)
    && (forall a, b :: a in rows && a !in rows' && b in rows' ==> Before(rows, a, b))
  }

  class Db {
    var t: Tables

    constructor (t: Tables)
      requires Valid(t)
      ensures this.t == t
    {
      this.t := t;
    }

    /** SELECT id ... ORDER BY key ASC, id ASC LIMIT n over the expired rows. */
    method Oldest(rows: Rows, horizon: int, n: nat) returns (ids: set<nat>)
      ensures ids <= Expired(rows, horizon) && |ids| == Min(n, |Expired(rows, horizon)|)
      ensures forall a, b :: a in ids && b in rows && b !in ids ==> Before(rows, a, b)
    {
      ids := {};
      var left := Expired(rows, horizon);
      while |ids| < n && left != {}
        invariant left == Expired(rows, horizon) - ids && ids <= Expired(rows, horizon) && |ids| <= n
        invariant |ids| + |left| == |Expired(rows, horizon)|
        invariant forall a, b :: a in ids && b in rows && b !in ids ==> Before(rows, a, b)
      {
        var id := Least(rows, left);
        ids, left := ids + {id}, left - {id};
      }
    }

    method Least(rows: Rows, ids: set<nat>) returns (m: nat)
      requires ids != {} && ids <= rows.Keys
      ensures m in ids && forall b :: b in ids ==> Before(rows, m, b)
    {
      m :| m in ids;
      var left := ids - {m};
      while left != {}
        invariant m in ids && left <= ids && forall x :: x in ids && x !in left ==> Before(rows, m, x)
      {
        var b :| b in left;
        if !Before(rows, m, b) { m := b; }
        left := left - {b};
      }
    }

    /** sweep_one_batch: its own transaction, so a refused batch deletes nothing. */
    method SweepOneBatch(k: nat, horizon: int, refused: bool) returns (r: Result<nat>)
      requires k < 4 && Valid(t)
      modifies this
      ensures Valid(t) && Pruned(old(t), t, horizon)
      ensures r.Ok? <==> !refused
      ensures r.Ok? ==>
                && r.value == Min(BATCH_ROWS, Eligible(old(t), horizon)[k])
                && Eligible(t, horizon) == Eligible(old(t), horizon)[k := Eligible(old(t), horizon)[k] - r.value]
      ensures r.Err? ==> t == old(t)
    {
      hide Pruned, Eligible, Expired, Before;
      PrunedNothing(t, horizon);
      if refused { return Err; }
      if k < 3 {
        var rows := t.dated[k];
        var ids := Oldest(rows, horizon, BATCH_ROWS);
        DatedBatch(t, k, ids, horizon);
        t := t.(dated := t.dated[k := rows - ids]);
        r := Ok(|ids|);
      } else {
        var n := Min(BATCH_ROWS, Eligible(t, horizon)[3]);
        SnapshotBatch(t, n, horizon);
        t := t.(snapshots := t.snapshots[n..]);
        r := Ok(n);
      }
    }

    /** run_retention_sweep. `refusedTurn` numbers the batch whose transaction fails: the sweep fails exactly
        when it gets that far. */
    method RunRetentionSweep(now: int, cursor: nat, refusedTurn: nat) returns (r: Result<Report>)
      requires Valid(t)
      modifies this
      ensures Pruned(old(t), t, SaturatingSub(now, RETENTION_SECONDS))
      ensures ProtectedKept(old(t), t, SaturatingSub(now, RETENTION_SECONDS))
      ensures r.Ok? <==> refusedTurn >= TurnsFrom(
                Start(Eligible(old(t), SaturatingSub(now, RETENTION_SECONDS)), cursor), MAX_BATCHES)
      ensures r.Ok? ==>
                var horizon := SaturatingSub(now, RETENTION_SECONDS);
                var e := Eligible(old(t), horizon);
                var s := Sweep(e, cursor);
                && Eligible(t, horizon) == s.e
                && r.value.batches == s.batches
                && r.value.truncated == (s.batches == MAX_BATCHES)
                && r.value.nextCursor == s.cursor
                && |r.value.deleted| == 4
                && forall k :: 0 <= k < 4 ==> r.value.deleted[k] + s.e[k] == e[k]
    {
      hide Pruned, Eligible, Expired, ProtectedKept;
      var horizon := SaturatingSub(now, RETENTION_SECONDS);
      PrunedNothing(t, horizon);
      ProtectedRowsSurvive(t, t, horizon);
      var index, batches, empty, next := cursor % 4, 0, 0, cursor;
      var deleted := [0, 0, 0, 0];
      var turn := 0;
      ghost var e := Eligible(t, horizon);
      ghost var s := Start(e, cursor);
      while batches < MAX_BATCHES && empty < 4
        invariant Valid(t) && Pruned(old(t), t, horizon) && ProtectedKept(old(t), t, horizon) && Good(s)
        invariant s.e == Eligible(t, horizon) && s.index == index && s.batches == batches && s.empty == empty
        invariant s.cursor == next && batches <= MAX_BATCHES
        invariant Loop(s, MAX_BATCHES) == Sweep(e, cursor)
        invariant turn + TurnsFrom(s, MAX_BATCHES) == TurnsFrom(Start(e, cursor), MAX_BATCHES) && turn <= refusedTurn
        invariant |deleted| == 4 && forall k :: 0 <= k < 4 ==> deleted[k] + s.e[k] == e[k]
        decreases MAX_BATCHES - batches, 4 - empty
      {
        ghost var before := t;
        var batch := SweepOneBatch(index, horizon, turn == refusedTurn);
        PrunedTwice(old(t), before, t, horizon);
        ProtectedRowsSurvive(old(t), t, horizon);
        if batch.Err? { return Err; }
        turn := turn + 1;
        if batch.value == 0 {
          empty := empty + 1;
        } else {
          empty, batches := 0, batches + 1;
          deleted := deleted[index := deleted[index] + batch.value];
          next := (index + 1) % 4;
        }
        s := Turn(s);
        index := (index + 1) % 4;
      }
      return Ok(Report(deleted, batches == MAX_BATCHES, batches, next));
    }
  }

  lemma PrunedNothing(t: Tables, horizon: int)
    requires Valid(t)
    ensures Pruned(t, t, horizon)
  {
  }

  /** Taking the oldest expired rows of one table prunes it, and that many fewer are eligible. */
  lemma DatedBatch(t: Tables, k: nat, ids: set<nat>, horizon: int)
    requires Valid(t) && k < 3 && ids <= Expired(t.dated[k], horizon)
    requires forall a, b :: a in ids && b in t.dated[k] && b !in ids ==> Before(t.dated[k], a, b)
    ensures Eligible(t, horizon)[k] == |Expired(t.dated[k], horizon)| >= |ids|
    ensures var t' := t.(dated := t.dated[k := t.dated[k] - ids]);
            Pruned(t, t', horizon)
            && Eligible(t', horizon) == Eligible(t, horizon)[k := Eligible(t, horizon)[k] - |ids|]
  {
    var rows := t.dated[k];
    assert Expired(rows - ids, horizon) == Expired(rows, horizon) - ids;
    assert Expired(rows, horizon) == ids + Expired(rows - ids, horizon);
    PrunedBatch(rows, ids, horizon);
    hide Expired, Before, PrunedRows;
    forall i | 0 <= i < 3 && i != k ensures PrunedRows(t.dated[i], t.dated[i], horizon) {
      PrunedBatch(t.dated[i], {}, horizon);
      assert t.dated[i] - {} == t.dated[i];
    }
  }

  lemma PrunedBatch(rows: Rows, ids: set<nat>, horizon: int)
    requires ids <= Expired(rows, horizon)
    requires forall a, b :: a in ids && b in rows && b !in ids ==> Before(rows, a, b)
    ensures PrunedRows(rows, rows - ids, horizon)
  {
  }

  lemma SnapshotBatch(t: Tables, n: nat, horizon: int)
    requires Valid(t) && n <= Eligible(t, horizon)[3]
    ensures n <= |t.snapshots|
    ensures var t' := t.(snapshots := t.snapshots[n..]);
            Pruned(t, t', horizon)
            && Eligible(t', horizon) == Eligible(t, horizon)[3 := Eligible(t, horizon)[3] - n]
  {
    hide Expired, Before;
  }

  lemma PrunedTwice(a: Tables, b: Tables, c: Tables, horizon: int)
    requires Pruned(a, b, horizon) && Pruned(b, c, horizon)
    ensures Pruned(a, c, horizon)
  {
    forall k | 0 <= k < 3 ensures PrunedRows(a.dated[k], c.dated[k], horizon) {
      PrunedRowsTwice(a.dated[k], b.dated[k], c.dated[k], horizon);
    }
  }

  lemma PrunedRowsTwice(a: Rows, b: Rows, c: Rows, horizon: int)
    requires PrunedRows(a, b, horizon) && PrunedRows(b, c, horizon)
    ensures PrunedRows(a, c, horizon)
  {
    forall x, y | x in a && x !in c && y in c ensures Before(a, x, y) {
      if x in b { assert Before(b, x, y); } else { assert Before(a, x, y); }
    }
  }

  ghost predicate ProtectedKept(t: Tables, t': Tables, horizon: int) {
    && Valid(t) && Valid(t')
    && (forall k, id :: 0 <= k < 3 && id in t.dated[k] && t.dated[k][id] >= horizon ==> id in t'.dated[k])
    && forall i :: 0 <= i < |t.snapshots| && |t.snapshots| - KEEP_LAST <= i ==> t.snapshots[i] in t'.snapshots
  }

  /** Nothing inside the horizon and none of the newest 90 snapshots is ever deleted. */
  lemma ProtectedRowsSurvive(t: Tables, t': Tables, horizon: int)
    requires Pruned(t, t', horizon)
    ensures ProtectedKept(t, t', horizon)
  {
    forall k, id | 0 <= k < 3 && id in t.dated[k] && t.dated[k][id] >= horizon ensures id in t'.dated[k] {
      assert PrunedRows(t.dated[k], t'.dated[k], horizon);
    }
    var gone := |t.snapshots| - |t'.snapshots|;
    forall i | 0 <= i < |t.snapshots| && |t.snapshots| - KEEP_LAST <= i ensures t.snapshots[i] in t'.snapshots {
      assert t'.snapshots[i - gone] == t.snapshots[i];
    }
  }

  // ----- how much one sweep does ----------------------------------------------------------------

  /** Batches needed to empty a table of `n` eligible rows. */
  function Batches(n: nat): nat { (n + BATCH_ROWS - 1) / BATCH_ROWS }

  function TotalBatches(e: seq<nat>): nat
    requires |e| == 4
  {
    Batches(e[0]) + Batches(e[1]) + Batches(e[2]) + Batches(e[3])
  }

  /** The last `empty` tables visited had nothing left. */
  ghost predicate EmptyTrail(s: State)
    requires Good(s)
  {
    && (s.empty >= 1 ==> s.e[(s.index + 3) % 4] == 0)
    && (s.empty >= 2 ==> s.e[(s.index + 2) % 4] == 0)
    && (s.empty >= 3 ==> s.e[(s.index + 1) % 4] == 0)
    && (s.empty >= 4 ==> s.e[s.index] == 0)
  }

  lemma BatchTaken(n: nat)
    ensures n > 0 ==> Batches(n) == Batches(n - Min(BATCH_ROWS, n)) + 1
    ensures Batches(n) == 0 <==> n == 0
  {
  }

  lemma TurnCounts(s: State)
    requires Good(s)
    ensures Turn(s).batches + TotalBatches(Turn(s).e) == s.batches + TotalBatches(s.e)
  {
    BatchTaken(s.e[s.index]);
    assert s.index == 0 || s.index == 1 || s.index == 2 || s.index == 3;
  }

  lemma TurnKeepsTrail(s: State)
    requires Good(s) && EmptyTrail(s) && s.empty < 4
    ensures EmptyTrail(Turn(s))
  {
    assert s.index == 0 || s.index == 1 || s.index == 2 || s.index == 3;
  }

  lemma FullTrailIsEmpty(s: State)
    requires Good(s) && EmptyTrail(s) && s.empty >= 4
    ensures s.e == [0, 0, 0, 0]
  {
    assert s.index == 0 || s.index == 1 || s.index == 2 || s.index == 3;
  }

  lemma {:induction false} LoopCounts(s: State, cap: nat)
    requires Good(s) && EmptyTrail(s) && s.batches <= cap
    ensures var r := Loop(s, cap);
            && r.batches + TotalBatches(r.e) == s.batches + TotalBatches(s.e)
            && r.batches <= cap
            && (r.batches < cap ==> r.e == [0, 0, 0, 0])
    decreases cap - s.batches, if s.empty < 4 then 4 - s.empty else 0
  {
    if s.batches < cap && s.empty < 4 {
      TurnCounts(s);
      TurnKeepsTrail(s);
      LoopCounts(Turn(s), cap);
    } else if s.batches < cap {
      FullTrailIsEmpty(s);
    }
  }

  /** A sweep uses exactly min(8, sum of ceil(eligible / 500)) non-empty batches, and if it was not
      truncated no eligible row is left. */
  lemma SweepIsExact(e: seq<nat>, cursor: nat)
    requires |e| == 4
    ensures Sweep(e, cursor).batches == Min(MAX_BATCHES, TotalBatches(e))
    ensures Sweep(e, cursor).batches < MAX_BATCHES ==> Sweep(e, cursor).e == [0, 0, 0, 0]
    ensures TotalBatches(Sweep(e, cursor).e) == TotalBatches(e) - Sweep(e, cursor).batches
  {
    LoopCounts(Start(e, cursor), MAX_BATCHES);
  }

  /** Between two batches a sweep looks at no more than three empty tables, and at four to end. */
  lemma {:induction false} TurnsAreBounded(s: State, cap: nat)
    requires Good(s) && s.batches <= cap && s.empty <= 4
    ensures TurnsFrom(s, cap) + s.empty <= 4 * (Loop(s, cap).batches - s.batches) + 4
    decreases cap - s.batches, if s.empty < 4 then 4 - s.empty else 0
  {
    if s.batches < cap && s.empty < 4 {
      TurnsAreBounded(Turn(s), cap);
    }
  }

  /** A sweep takes at most 36 turns, so a fault numbered beyond that is never met. */
  lemma SweepTurnsAreBounded(e: seq<nat>, cursor: nat)
    requires |e| == 4
    ensures TurnsFrom(Start(e, cursor), MAX_BATCHES) <= 4 * Sweep(e, cursor).batches + 4 <= 36
  {
    TurnsAreBounded(Start(e, cursor), MAX_BATCHES);
    SweepIsExact(e, cursor);
  }

  // ----- fairness ----------------------------------------------------------------------------------

  /** Visits to table `i` after `n` turns that started at `c`. */
  function Visits(c: nat, i: nat, n: nat): nat {
    (n + 3 - (i + 4 - c % 4) % 4) / 4
  }

  lemma VisitsTurn(c: nat, i: nat, n: nat)
    requires c < 4 && i < 4
    ensures Visits(c, i, n + 1) == Visits(c, i, n) + if (c + n) % 4 == i then 1 else 0
  {
    var d := if c <= i then i - c else i + 4 - c;
    assert (i + 4 - c % 4) % 4 == d;
    NextVisit(d, n);
    SameTurn(c, i, d, n);
  }

  lemma NextVisit(d: nat, n: nat)
    requires d < 4
    ensures (n + 4 - d) / 4 == (n + 3 - d) / 4 + if n % 4 == d then 1 else 0
  {
    var q, m := n / 4, n % 4;
    assert n == 4 * q + m;
  }

  lemma SameTurn(c: nat, i: nat, d: nat, n: nat)
    requires c < 4 && i < 4 && d == if c <= i then i - c else i + 4 - c
    ensures (c + n) % 4 == i <==> n % 4 == d
  {
    var q, m := n / 4, n % 4;
    assert n == 4 * q + m;
    assert (c + n) % 4 == (c + m) % 4;
  }

  ghost predicate CountsAreVisits(s: State, c: nat, n: nat)
    requires Good(s) && c < 4
  {
    && s.index == (c + n) % 4
    && forall i :: 0 <= i < 4 && s.e[i] > 0 ==> s.counts[i] == Visits(c, i, n)
  }

  lemma {:induction false} LoopFair(s: State, cap: nat, c: nat, n: nat) returns (m: nat)
    requires Good(s) && c < 4 && CountsAreVisits(s, c, n)
    ensures CountsAreVisits(Loop(s, cap), c, m)
    decreases if s.batches < cap then cap - s.batches else 0, if s.empty < 4 then 4 - s.empty else 0
  {
    hide Visits;
    m := n;
    if s.batches < cap && s.empty < 4 {
      forall i | 0 <= i < 4 && Turn(s).e[i] > 0 ensures Turn(s).counts[i] == Visits(c, i, n + 1) {
        VisitsTurn(c, i, n);
      }
      m := LoopFair(Turn(s), cap, c, n + 1);
    }
  }

  /** Two tables that still hold eligible rows got batch counts differing by at most one. */
  lemma SweepIsFair(e: seq<nat>, cursor: nat, i: nat, j: nat)
    requires |e| == 4 && i < 4 && j < 4
    requires Sweep(e, cursor).e[i] > 0 && Sweep(e, cursor).e[j] > 0
    ensures Sweep(e, cursor).counts[i] <= Sweep(e, cursor).counts[j] + 1
  {
    var c := cursor % 4;
    var m := LoopFair(Start(e, cursor), MAX_BATCHES, c, 0);
  }

  // ----- truncated sweeps chained by the cursor ----------------------------------------------------

  /** `s` with `b` more batches and `counts` added to its own. */
  function Shifted(s: State, b: nat, counts: seq<nat>): (r: State)
    requires Good(s) && |counts| == 4
    ensures Good(r)
  {
    s.(batches := s.batches + b, counts := seq(4, i requires 0 <= i < 4 => counts[i] + s.counts[i]))
  }

  /** `k` sweeps in a row, each resuming at the cursor of the one before. */
  function Chain(e: seq<nat>, cursor: nat, k: nat): (r: State)
    requires |e| == 4
    ensures Good(r)
  {
    if k == 0 then Start(e, cursor)
    else
      var before := Chain(e, cursor, k - 1);
      var s := Sweep(before.e, before.cursor);
      Shifted(s, before.batches, before.counts)
  }

  lemma {:induction false} LoopShifts(s: State, cap: nat, b: nat, counts: seq<nat>)
    requires Good(s) && |counts| == 4
    ensures Loop(Shifted(s, b, counts), cap + b) == Shifted(Loop(s, cap), b, counts)
    decreases if s.batches < cap then cap - s.batches else 0, if s.empty < 4 then 4 - s.empty else 0
  {
    if s.batches < cap && s.empty < 4 {
      LoopShifts(Turn(s), cap, b, counts);
      assert Turn(Shifted(s, b, counts)) == Shifted(Turn(s), b, counts);
    }
  }

  lemma {:induction false} LoopSplits(s: State, cap: nat, more: nat)
    requires Good(s)
    ensures Loop(Loop(s, cap), cap + more) == Loop(s, cap + more)
    decreases if s.batches < cap then cap - s.batches else 0, if s.empty < 4 then 4 - s.empty else 0
  {
    if s.batches < cap && s.empty < 4 {
      LoopSplits(Turn(s), cap, more);
    }
  }

  /** A loop that stops at its cap stopped right after a non-empty batch: its cursor is its index. */
  lemma {:induction false} CapStopsAtCursor(s: State, cap: nat)
    requires Good(s) && s.batches <= cap
    requires s.batches == cap ==> s.cursor == s.index && s.empty == 0
    ensures var r := Loop(s, cap); r.batches == cap ==> r.cursor == r.index && r.empty == 0
    decreases cap - s.batches, if s.empty < 4 then 4 - s.empty else 0
  {
    if s.batches < cap && s.empty < 4 {
      CapStopsAtCursor(Turn(s), cap);
    }
  }

  /** One more sweep after a loop that stopped at its cap continues that loop. */
  lemma {:induction false} SweepContinues(before: State, cap: nat)
    requires Good(before) && before.cursor == before.index && before.empty == 0 && before.batches == cap
    ensures Loop(before, cap + MAX_BATCHES)
            == Shifted(Sweep(before.e, before.cursor), before.batches, before.counts)
  {
    var anew := Start(before.e, before.cursor);
    assert Shifted(anew, cap, before.counts) == before;
    LoopShifts(anew, MAX_BATCHES, cap, before.counts);
  }

  lemma {:induction false} CappedLoopContinues(s: State, cap: nat, before: State)
    requires Good(s) && s.batches == 0 && cap > 0
    requires before == Loop(s, cap) && before.batches == cap
    ensures Loop(s, cap + MAX_BATCHES) == Shifted(Sweep(before.e, before.cursor), before.batches, before.counts)
  {
    CapStopsAtCursor(s, cap);
    LoopSplits(s, cap, MAX_BATCHES);
    SweepContinues(before, cap);
  }

  /** As long as every earlier sweep was truncated, `k` sweeps chained by the cursor are one round
      robin with `k` times the bound. */
  lemma {:induction false} ChainIsOneRoundRobin(e: seq<nat>, cursor: nat, k: nat)
    requires |e| == 4
    requires forall j :: 0 < j < k ==> Chain(e, cursor, j).batches == MAX_BATCHES * j
    ensures Chain(e, cursor, k) == Loop(Start(e, cursor), MAX_BATCHES * k)
  {
    if k == 1 {
      var s := Sweep(e, cursor);
      assert Shifted(s, 0, [0, 0, 0, 0]) == s;
    } else if k > 1 {
      ChainIsOneRoundRobin(e, cursor, k - 1);
      CappedLoopContinues(Start(e, cursor), MAX_BATCHES * (k - 1), Chain(e, cursor, k - 1));
    }
  }

  /** However many sweeps are chained, they use the batches the tables need or eight a sweep, no more or fewer. */
  lemma {:induction false} ChainIsExact(e: seq<nat>, cursor: nat, k: nat)
    requires |e| == 4
    ensures Chain(e, cursor, k).batches == Min(MAX_BATCHES * k, TotalBatches(e))
    ensures Chain(e, cursor, k).batches + TotalBatches(Chain(e, cursor, k).e) == TotalBatches(e)
  {
    hide Sweep, TotalBatches;
    if k > 0 {
      ChainIsExact(e, cursor, k - 1);
      var before := Chain(e, cursor, k - 1);
      SweepIsExact(before.e, before.cursor);
      BatchesAreNatural(Sweep(before.e, before.cursor).e);
    } else {
      BatchesAreNatural(e);
    }
  }

  lemma BatchesAreNatural(e: seq<nat>)
    requires |e| == 4
    ensures TotalBatches(e) >= 0
  {
  }

  /** What the cursor is for: after any number of truncated sweeps, two tables that still hold eligible rows got
      batch counts differing by at most one over all of them. */
  lemma {:induction false} ChainIsFair(e: seq<nat>, cursor: nat, k: nat, i: nat, j: nat)
    requires |e| == 4 && i < 4 && j < 4
    requires forall n :: 0 < n < k ==> Chain(e, cursor, n).batches == MAX_BATCHES * n
    requires Chain(e, cursor, k).e[i] > 0 && Chain(e, cursor, k).e[j] > 0
    ensures Chain(e, cursor, k).counts[i] <= Chain(e, cursor, k).counts[j] + 1
  {
    hide Chain, Loop, Sweep;
    ChainIsOneRoundRobin(e, cursor, k);
    var m := LoopFair(Start(e, cursor), MAX_BATCHES * k, cursor % 4, 0);
  }
}
