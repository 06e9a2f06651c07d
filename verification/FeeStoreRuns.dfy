/**
  Whole runs of the fee store: any interleaving of deciders that read the generation, commit
  with or without the compare-and-set, and refuse seeds, with a disk fault allowed at every
  statement of every call.
*/
module FeeStoreRuns {
  import opened Outcomes
  import opened FeeStore

  datatype Act =
    | Read(decider: nat, failAt: nat)
    | Guarded(decider: nat, c: Commit, failAt: nat)
    | Plain(c: Commit, failAt: nat)
    | Refuse(ev: SeedEvent, failAt: nat)

  /** The store, and for each decider the generation of its latest successful read. */
  datatype World = World(t: Tables, seen: map<nat, nat>)

  /** The commit that `a` makes durable in `w`, if it makes one durable. */
  function LandedBy(w: World, a: Act): Option<Commit> {
    match a
    case Plain(c, failAt) => if Lands(w.t, c, failAt) then Some(c) else None
    case Guarded(d, c, failAt) =>
      if d in w.seen && GuardedLands(w.t, c, w.seen[d], failAt) then Some(c) else None
    case _ => None
  }

  /** One act. Reading the existence flag and the generation takes BEGIN and two queries. */
  function Step(w: World, a: Act): World {
    match a
    case Read(d, failAt) =>
      if failAt >= 3 then w.(seen := w.seen[d := StateGeneration(w.t)]) else w
    case Guarded(d, c, failAt) =>
      if d in w.seen then w.(t := AfterGuarded(w.t, c, w.seen[d], failAt)) else w
    case Plain(c, failAt) => w.(t := AfterCommit(w.t, c, failAt))
    case Refuse(ev, failAt) => w.(t := AfterRefusal(w.t, ev, failAt))
  }

  function Run(acts: seq<Act>): World {
    if acts == [] then World(FRESH, map[])
    else Step(Run(acts[..|acts| - 1]), acts[|acts| - 1])
  }

  /** The commits that landed, oldest first. */
  function Log(acts: seq<Act>): seq<Commit> {
    if acts == [] then []
    else
      var earlier := acts[..|acts| - 1];
      match LandedBy(Run(earlier), acts[|acts| - 1])
      case Some(c) => Log(earlier) + [c]
      case None => Log(earlier)
  }

  // ----- what the tables hold, read off the log alone -------------------------------

  function LastRow(rows: seq<StateRow>, ch: string): Option<StateRow> {
    if rows == [] then None
    else if rows[|rows| - 1].channelId == ch then Some(rows[|rows| - 1])
    else LastRow(rows[..|rows| - 1], ch)
  }

  /** The last state row any landed commit wrote for `ch`, with the generation that wrote it. */
  function LastWriter(log: seq<Commit>, ch: string): Option<StateEntry> {
    if log == [] then None
    else
      match LastRow(log[|log| - 1].stateRows, ch)
      case Some(r) => Some(StateEntry(|log|, r.json, r.lastUpdate))
      case None => LastWriter(log[..|log| - 1], ch)
  }

  function CountRequests(rows: seq<RequestRow>, cycleId: string): nat {
    if rows == [] then 0
    else CountRequests(rows[..|rows| - 1], cycleId) + (if rows[|rows| - 1].cycleId == cycleId then 1 else 0)
  }

  /** load_latest_state, rows keyed by channel. */
  datatype Snapshot = Snapshot(generation: nat, rows: map<string, StateRow>)

  function LoadLatestState(t: Tables): Snapshot {
    Snapshot(
      StateGeneration(t),
      map ch | ch in t.state :: StateRow(ch, t.state[ch].json, t.state[ch].lastUpdate))
  }

  function CycleOf(c: Commit, generation: int): CycleRow {
    CycleRow(generation, c.startedAt, c.completedAt, c.sourceCommit, c.binarySha256, |c.requests|)
  }

  /** The cycle table lists the log, one row per commit, at generations 1, 2, ... */
  ghost predicate CyclesList(cycles: map<string, CycleRow>, log: seq<Commit>) {
    && (forall i :: 0 <= i < |log| ==>
          log[i].cycleId in cycles && cycles[log[i].cycleId] == CycleOf(log[i], i + 1))
    && (forall id :: id in cycles ==> exists i :: 0 <= i < |log| && log[i].cycleId == id)
  }

  /** Every cycle row counts its own request rows. */
  ghost predicate CountsAgree(cycles: map<string, CycleRow>, requests: seq<RequestRow>) {
    forall id :: id in cycles ==> cycles[id].requestCount == CountRequests(requests, id)
  }

  /** The state table holds the last writer of every channel. */
  ghost predicate LastWritersHeld(state: map<string, StateEntry>, log: seq<Commit>) {
    forall ch :: LastWriter(log, ch) == (if ch in state then Some(state[ch]) else None)
  }

  /** `t` is exactly what `log` says it is. */
  ghost predicate Materialises(t: Tables, log: seq<Commit>) {
    && Valid(t)
    && Generation(t) == |log|
    && CyclesList(t.cycles, log)
    && CountsAgree(t.cycles, t.requests)
    && LastWritersHeld(t.state, log)
  }

  // ----- refinement ---------------------------------------------------------------------

  lemma {:induction false} UpsertIsLastRow(state: map<string, StateEntry>, rows: seq<StateRow>, g: int, ch: string)
    ensures var m := Upsert(state, rows, g);
            match LastRow(rows, ch)
            case Some(r) => ch in m && m[ch] == StateEntry(g, r.json, r.lastUpdate)
            case None => (ch in m <==> ch in state) && (ch in m ==> m[ch] == state[ch])
  {
    if rows != [] {
      UpsertIsLastRow(state, rows[..|rows| - 1], g, ch);
    }
  }

  lemma {:induction false} CountAppend(a: seq<RequestRow>, b: seq<RequestRow>, id: string)
    ensures CountRequests(a + b, id) == CountRequests(a, id) + CountRequests(b, id)
  {
    if b == [] {
      assert a + b == a;
    } else {
      assert (a + b)[..|a + b| - 1] == a + b[..|b| - 1];
      CountAppend(a, b[..|b| - 1], id);
    }
  }

  lemma {:induction false} CountUniform(rows: seq<RequestRow>, id: string, own: bool)
    requires forall i :: 0 <= i < |rows| ==> (rows[i].cycleId == id) == own
    ensures CountRequests(rows, id) == if own then |rows| else 0
  {
    if rows != [] {
      CountUniform(rows[..|rows| - 1], id, own);
    }
  }

  lemma CyclesExtend(cycles: map<string, CycleRow>, log: seq<Commit>, c: Commit)
    requires CyclesList(cycles, log) && c.cycleId !in cycles
    ensures CyclesList(cycles[c.cycleId := CycleOf(c, |log| + 1)], log + [c])
  {
    var log' := log + [c];
    var cycles' := cycles[c.cycleId := CycleOf(c, |log| + 1)];
    forall id | id in cycles'
      ensures exists i :: 0 <= i < |log'| && log'[i].cycleId == id
    {
      if id == c.cycleId {
        assert log'[|log|].cycleId == id;
      } else {
        var i :| 0 <= i < |log| && log[i].cycleId == id;
        assert log'[i].cycleId == id;
      }
    }
  }

  lemma CountsExtend(t: Tables, c: Commit)
    requires Valid(t) && CountsAgree(t.cycles, t.requests) && c.cycleId !in t.cycles
    ensures CountsAgree(Committed(t, c).cycles, Committed(t, c).requests)
  {
    var added := RequestRows(c.cycleId, c.requests);
    forall id | id in Committed(t, c).cycles
      ensures Committed(t, c).cycles[id].requestCount == CountRequests(t.requests + added, id)
    {
      CountAppend(t.requests, added, id);
      CountUniform(added, id, id == c.cycleId);
      if id == c.cycleId {
        CountUniform(t.requests, id, false);
      }
    }
  }

  lemma LastWritersExtend(state: map<string, StateEntry>, log: seq<Commit>, c: Commit)
    requires LastWritersHeld(state, log)
    ensures LastWritersHeld(Upsert(state, c.stateRows, |log| + 1), log + [c])
  {
    assert (log + [c])[..|log|] == log;
    forall ch
      ensures var m := Upsert(state, c.stateRows, |log| + 1);
              LastWriter(log + [c], ch) == if ch in m then Some(m[ch]) else None
    {
      UpsertIsLastRow(state, c.stateRows, |log| + 1, ch);
    }
  }

  lemma ValidExtends(t: Tables, c: Commit)
    requires Valid(t)
    ensures Valid(Committed(t, c))
  {
    hide Upsert, GovernorRows, EventRows;
  }

  /** A commit that lands appends one entry to the log the tables stand for. */
  lemma CommitMaterialises(t: Tables, log: seq<Commit>, c: Commit)
    requires Materialises(t, log) && Admissible(t, c)
    ensures Materialises(Committed(t, c), log + [c])
  {
    hide Upsert, RequestRows, OutcomeRows, LastWriter, CountRequests, CyclesList, CountsAgree, LastWritersHeld, Valid;
    ValidExtends(t, c);
    CyclesExtend(t.cycles, log, c);
    CountsExtend(t, c);
    LastWritersExtend(t.state, log, c);
  }

  /** The materialised tables refine the log in every reachable store. */
  lemma {:induction false} StoreRefinesLog(acts: seq<Act>)
    ensures Materialises(Run(acts).t, Log(acts))
  {
    if acts != [] {
      var earlier := acts[..|acts| - 1];
      StoreRefinesLog(earlier);
      var w := Run(earlier);
      match LandedBy(w, acts[|acts| - 1])
      case Some(c) => CommitMaterialises(w.t, Log(earlier), c);
      case None =>
    }
  }

  /** The cycle rows carry the generations 1..g, each exactly once. */
  lemma {:induction false} GenerationsAreContiguous(acts: seq<Act>, g: int)
    ensures var cycles := Run(acts).t.cycles;
            && (1 <= g <= Generation(Run(acts).t) <==> exists id :: id in cycles && cycles[id].generation == g)
            && (forall a, b :: a in cycles && b in cycles && cycles[a].generation == g == cycles[b].generation
                               ==> a == b)
  {
    StoreRefinesLog(acts);
    var t, log := Run(acts).t, Log(acts);
    if 1 <= g <= |log| {
      assert t.cycles[log[g - 1].cycleId].generation == g;
    }
  }

  /** load_latest_state answers, for every channel, the last row any landed cycle wrote for it,
      including rows of older generations. */
  lemma {:induction false} LoadIsFoldOfLog(acts: seq<Act>, ch: string)
    ensures var s, log := LoadLatestState(Run(acts).t), Log(acts);
            && s.generation == |log|
            && match LastWriter(log, ch)
               case Some(e) => ch in s.rows && s.rows[ch] == StateRow(ch, e.json, e.lastUpdate)
               case None => ch !in s.rows
  {
    StoreRefinesLog(acts);
  }

  predicate Writes(c: Commit, ch: string) { LastRow(c.stateRows, ch).Some? }

  /** Every row load_latest_state returns was written at the generation it returns. */
  ghost predicate AllCurrent(t: Tables) {
    forall ch :: ch in t.state ==> t.state[ch].generation == StateGeneration(t)
  }

  /** The last commit rewrites every channel an earlier one wrote. */
  ghost predicate LastCoversAll(log: seq<Commit>) {
    forall i, ch :: 0 <= i < |log| && Writes(log[i], ch) ==> Writes(log[|log| - 1], ch)
  }

  lemma {:induction false} LastWriterMeans(log: seq<Commit>, ch: string)
    ensures LastWriter(log, ch).Some? <==> exists i :: 0 <= i < |log| && Writes(log[i], ch)
    ensures LastWriter(log, ch).Some? ==> LastWriter(log, ch).value.generation <= |log|
    ensures log != [] ==> (LastWriter(log, ch).Some? && LastWriter(log, ch).value.generation == |log| <==> Writes(log[|log| - 1], ch))
  {
    hide LastRow;
    if log != [] {
      var n := |log| - 1;
      LastWriterMeans(log[..n], ch);
      if i :| 0 <= i < |log| && Writes(log[i], ch) && i < n { assert log[..n][i] == log[i]; }
      if i :| 0 <= i < n && Writes(log[..n][i], ch) { assert log[..n][i] == log[i]; }
      if LastWriter(log, ch).Some? { assert Writes(log[n], ch) || LastWriter(log[..n], ch).Some?; }
    }
  }

  /**
    The documented "rows at the current generation" holds after a run exactly when the last commit that landed
    rewrote every channel any commit had written; with nothing committed it holds of no rows.
  */
  lemma {:induction false} RowsAreCurrentIff(acts: seq<Act>)
    ensures AllCurrent(Run(acts).t) <==> LastCoversAll(Log(acts))
  {
    StoreRefinesLog(acts);
    var t, log := Run(acts).t, Log(acts);
    hide LastWriter, Run, Log, CyclesList, CountsAgree, Valid, Writes;
    forall ch ensures ch in t.state <==> exists i :: 0 <= i < |log| && Writes(log[i], ch) { LastWriterMeans(log, ch); }
    forall ch | ch in t.state ensures log != [] && (t.state[ch].generation == |log| <==> Writes(log[|log| - 1], ch)) {
      LastWriterMeans(log, ch);
    }
    assert StateGeneration(t) == |log|;
    if AllCurrent(t) {
      forall i, ch | 0 <= i < |log| && Writes(log[i], ch) ensures Writes(log[|log| - 1], ch) {
        assert ch in t.state;
      }
    }
  }

  function OneRow(cycleId: string, ch: string): Commit {
    Commit(cycleId, 0, 0, "", "", [StateRow(ch, "{}", 0)], [], [], [], [], None, None)
  }

  /** The input: two commits for different channels; the first channel's row is of generation 1 at generation 2. */
  lemma OldRowsAreReturned()
    ensures var acts := [Plain(OneRow("a", "x"), 99), Plain(OneRow("b", "y"), 99)];
            Log(acts) == [acts[0].c, acts[1].c] && !AllCurrent(Run(acts).t)
  {
    var acts := [Plain(OneRow("a", "x"), 99), Plain(OneRow("b", "y"), 99)];
    var one := acts[..1];
    assert one[..0] == [] && acts[..|acts| - 1] == one && one[0] == acts[0];
    assert Run(one).t == Committed(FRESH, acts[0].c) && Log(one) == [acts[0].c];
    assert Log(acts) == Log(one) + [acts[1].c];
    RowsAreCurrentIff(acts);
    assert Writes(Log(acts)[0], "x") && !Writes(Log(acts)[1], "x");
  }

  // ----- compare-and-set ------------------------------------------------------------------

  lemma {:induction false} LogGrows(acts: seq<Act>, i: nat)
    requires i <= |acts|
    ensures |Log(acts[..i])| <= |Log(acts)| && Log(acts)[..|Log(acts[..i])|] == Log(acts[..i])
  {
    if i == |acts| {
      assert acts[..i] == acts;
    } else {
      var earlier := acts[..|acts| - 1];
      LogGrows(earlier, i);
      assert earlier[..i] == acts[..i];
    }
  }

  /** `i` is the latest successful read of decider `d` before `j`. */
  ghost predicate LatestRead(acts: seq<Act>, i: nat, j: nat, d: nat) {
    && i < j <= |acts|
    && acts[i].Read? && acts[i].decider == d && acts[i].failAt >= 3
    && forall k :: i < k < j ==> !(acts[k].Read? && acts[k].decider == d && acts[k].failAt >= 3)
  }

  lemma {:induction false} SeenIsReadGeneration(acts: seq<Act>, i: nat, j: nat, d: nat)
    requires LatestRead(acts, i, j, d)
    ensures d in Run(acts[..j]).seen && Run(acts[..j]).seen[d] == |Log(acts[..i])|
    decreases j
  {
    var before := acts[..j - 1];
    assert acts[..j][..j - 1] == before;
    if i == j - 1 {
      StoreRefinesLog(before);
    } else {
      SeenIsReadGeneration(acts, i, j - 1, d);
    }
  }

  /**
    No lost update. At position `j` decider `d` commits with the generation of its latest read,
    made at `i`. The commit lands exactly when nothing landed in between, its rows are admissible
    and the disk does not fail; it then produces the generation it read plus one.
  */
  lemma {:induction false} NoLostUpdate(acts: seq<Act>, i: nat, j: nat, d: nat, c: Commit, failAt: nat)
    requires j < |acts| && acts[j] == Guarded(d, c, failAt)
    requires LatestRead(acts, i, j, d)
    ensures LandedBy(Run(acts[..j]), acts[j]).Some? <==>
              && Log(acts[..j]) == Log(acts[..i])
              && Admissible(Run(acts[..j]).t, c)
              && failAt >= 2 + LockedStatements(c)
    ensures LandedBy(Run(acts[..j]), acts[j]).Some? ==>
              Generation(Run(acts[..j + 1]).t) == Generation(Run(acts[..i]).t) + 1
  {
    hide Admissible, LockedStatements, LandedBy, Step, Generation;
    SeenIsReadGeneration(acts, i, j, d);
    GenerationIsLogLength(acts[..j]);
    GenerationIsLogLength(acts[..i]);
    GuardedStep(Run(acts[..j]), d, c, failAt);
    SameLog(acts[..j], i);
    assert acts[..j][..i] == acts[..i];
    assert acts[..j + 1][..j] == acts[..j] && acts[..j + 1][j] == acts[j];
  }

  lemma GuardedStep(w: World, d: nat, c: Commit, failAt: nat)
    requires d in w.seen && Generation(w.t) >= 0
    ensures LandedBy(w, Guarded(d, c, failAt)).Some? <==>
              Generation(w.t) == w.seen[d] && Admissible(w.t, c) && failAt >= 2 + LockedStatements(c)
    ensures LandedBy(w, Guarded(d, c, failAt)).Some? ==>
              Generation(Step(w, Guarded(d, c, failAt)).t) == w.seen[d] + 1
  {
  }

  lemma {:induction false} SameLog(acts: seq<Act>, i: nat)
    requires i <= |acts|
    ensures |Log(acts)| == |Log(acts[..i])| <==> Log(acts) == Log(acts[..i])
  {
    LogGrows(acts, i);
  }

  lemma {:induction false} GenerationIsLogLength(acts: seq<Act>)
    ensures Generation(Run(acts).t) == |Log(acts)|
  {
    StoreRefinesLog(acts);
  }

  /** No cycle id is ever committed twice, by whatever mix of deciders and commit forms. */
  lemma {:induction false} NoCycleCommitsTwice(acts: seq<Act>, i: nat, j: nat)
    requires i < j < |Log(acts)|
    ensures Log(acts)[i].cycleId != Log(acts)[j].cycleId
  {
    StoreRefinesLog(acts);
  }
}
