/** The seed-provenance verdict of crates/revops-db/src/fee_runway.rs, and its history on every run. */
module SeedVerdict {
  import opened Outcomes
  import opened FeeStore
  import opened FeeStoreRuns

  datatype Reason =
    | SuccessOnGenerationZero
    | LaterRefusals
    | NoSuccessRow
    | DuplicateSuccess
    | Unbound
    | BindsOtherGeneration
    | CycleAtOtherGeneration
    | CycleMissing

  datatype Verdict = VirginStore | VerifiedBound(cycleId: string) | Invalid(reason: Reason)

  /** Ids of the rows that claim a successful seed, ascending. */
  function SuccessIds(seeds: seq<SeedRow>): (ids: seq<nat>)
    ensures forall i :: 0 <= i < |ids| ==> ids[i] < |seeds| && seeds[ids[i]].event.outcome == "seeded"
    ensures ids == [] <==> !HasSuccess(seeds)
  {
    if seeds == [] then []
    else
      var n := |seeds| - 1;
      var ids := SuccessIds(seeds[..n]);
      assert HasSuccess(seeds[..n]) ==> HasSuccess(seeds);
      if seeds[n].event.outcome == "seeded" then ids + [n] else ids
  }

  predicate RefusedAfter(seeds: seq<SeedRow>, id: int) {
    exists j :: id < j < |seeds| && 0 <= j && seeds[j].event.outcome == "seed_refused"
  }

  /** verified_seed_binding, branch for branch. */
  function VerifiedSeedBinding(t: Tables): Verdict {
    var ids := SuccessIds(t.seeds);
    if Generation(t) <= 0 then
      if ids == [] then VirginStore else Invalid(SuccessOnGenerationZero)
    else if |ids| == 1 && RefusedAfter(t.seeds, ids[0]) then Invalid(LaterRefusals)
    else if ids == [] then Invalid(NoSuccessRow)
    else if |ids| > 1 then Invalid(DuplicateSuccess)
    else
      var row := t.seeds[ids[0]];
      if row.boundCycle.None? || row.boundGeneration.None? then Invalid(Unbound)
      else if row.boundGeneration.value != 1 then Invalid(BindsOtherGeneration)
      else if row.boundCycle.value !in t.cycles then Invalid(CycleMissing)
      else if t.cycles[row.boundCycle.value].generation != 1 then Invalid(CycleAtOtherGeneration)
      else VerifiedBound(row.boundCycle.value)
  }

  // ----- the automaton ------------------------------------------------------------

  predicate RefusesIn(a: Act) {
    a.Refuse? && RefusalLands(a.ev, a.failAt)
  }

  function Next(v: Verdict, landed: Option<Commit>, refused: bool): Verdict {
    match v
    case VirginStore =>
      if landed.None? then VirginStore
      else if landed.value.seed.Some? then VerifiedBound(landed.value.cycleId)
      else Invalid(NoSuccessRow)
    case VerifiedBound(_) => if refused then Invalid(LaterRefusals) else v
    case Invalid(_) => v
  }

  function Automaton(acts: seq<Act>): Verdict {
    if acts == [] then VirginStore
    else
      var earlier := acts[..|acts| - 1];
      var a := acts[|acts| - 1];
      Next(Automaton(earlier), LandedBy(Run(earlier), a), RefusesIn(a))
  }

  /** The one success row, if any, is bound to a cycle that exists at generation 1. */
  ghost predicate Provenance(t: Tables) {
    var ids := SuccessIds(t.seeds);
    && |ids| <= 1
    && Generation(t) >= 0
    && (ids != [] ==>
          && Generation(t) >= 1
          && var row := t.seeds[ids[0]];
             && row.boundGeneration == Some(1)
             && row.boundCycle.Some?
             && row.boundCycle.value in t.cycles
             && t.cycles[row.boundCycle.value].generation == 1)
  }

  lemma SeedsAppend(seeds: seq<SeedRow>, row: SeedRow)
    ensures var ids := SuccessIds(seeds);
            SuccessIds(seeds + [row]) == if row.event.outcome == "seeded" then ids + [|seeds|] else ids
    ensures forall id :: id < |seeds| ==>
              (RefusedAfter(seeds + [row], id) <==> RefusedAfter(seeds, id) || row.event.outcome == "seed_refused")
  {
    hide SuccessIds, RefusedAfter;
    IdsAppend(seeds, row);
    forall id | id < |seeds|
      ensures RefusedAfter(seeds + [row], id) <==> RefusedAfter(seeds, id) || row.event.outcome == "seed_refused"
    {
      RefusedAppend(seeds, row, id);
    }
  }

  lemma IdsAppend(seeds: seq<SeedRow>, row: SeedRow)
    ensures SuccessIds(seeds + [row])
            == if row.event.outcome == "seeded" then SuccessIds(seeds) + [|seeds|] else SuccessIds(seeds)
  {
    hide HasSuccess;
    var all := seeds + [row];
    assert all[..|seeds|] == seeds && all[|seeds|] == row;
  }

  lemma RefusedAppend(seeds: seq<SeedRow>, row: SeedRow, id: int)
    requires id < |seeds|
    ensures RefusedAfter(seeds + [row], id) <==> RefusedAfter(seeds, id) || row.event.outcome == "seed_refused"
  {
    var all := seeds + [row];
    assert forall j :: 0 <= j < |seeds| ==> all[j] == seeds[j];
    if RefusedAfter(seeds, id) {
      var j :| id < j < |seeds| && 0 <= j && seeds[j].event.outcome == "seed_refused";
      assert all[j].event.outcome == "seed_refused";
    } else if row.event.outcome == "seed_refused" {
      assert all[|seeds|].event.outcome == "seed_refused";
    }
  }

  lemma CommitStep(t: Tables, c: Commit)
    requires Provenance(t) && Admissible(t, c)
    ensures Provenance(Committed(t, c))
    ensures VerifiedSeedBinding(Committed(t, c)) == Next(VerifiedSeedBinding(t), Some(c), false)
  {
    hide SuccessIds, Upsert, RequestRows, OutcomeRows, GovernorRows, EventRows;
    if c.seed.Some? {
      SeedsAppend(t.seeds, SeedRow(c.seed.value, Some(c.cycleId), Some(1)));
      assert !RefusedAfter(Committed(t, c).seeds, |t.seeds|);
    }
  }

  lemma RefusalStep(t: Tables, ev: SeedEvent)
    requires Provenance(t) && ev.outcome == "seed_refused"
    ensures var t' := t.(seeds := t.seeds + [SeedRow(ev, None, None)]);
            Provenance(t') && VerifiedSeedBinding(t') == Next(VerifiedSeedBinding(t), None, true)
  {
    hide SuccessIds, RefusedAfter;
    SeedsAppend(t.seeds, SeedRow(ev, None, None));
  }

  lemma NothingSeeded()
    ensures Provenance(FRESH) && VerifiedSeedBinding(FRESH) == VirginStore
  {
  }

  lemma NextIdles(v: Verdict)
    ensures Next(v, None, false) == v
  {
  }

  lemma {:induction false} RunStep(acts: seq<Act>)
    ensures Provenance(Run(acts).t) && VerifiedSeedBinding(Run(acts).t) == Automaton(acts)
  {
    hide Provenance, VerifiedSeedBinding, Next, Committed, Admissible;
    NothingSeeded();
    if acts != [] {
      var earlier := acts[..|acts| - 1];
      var a := acts[|acts| - 1];
      RunStep(earlier);
      var w := Run(earlier);
      match LandedBy(w, a)
      case Some(c) => CommitStep(w.t, c);
      case None =>
        if RefusesIn(a) { RefusalStep(w.t, a.ev); } else { NextIdles(Automaton(earlier)); }
    }
  }

  /** On every run the verdict computed from the rows is the state of the automaton; only two of
      the eight invalidity reasons can ever be reported. */
  lemma {:induction false} VerdictIsAutomaton(acts: seq<Act>)
    ensures VerifiedSeedBinding(Run(acts).t) == Automaton(acts)
    ensures var v := VerifiedSeedBinding(Run(acts).t);
            v.Invalid? ==> v.reason == NoSuccessRow || v.reason == LaterRefusals
  {
    RunStep(acts);
    ReachableReasons(acts);
  }

  lemma {:induction false} ReachableReasons(acts: seq<Act>)
    ensures var v := Automaton(acts); v.Invalid? ==> v.reason == NoSuccessRow || v.reason == LaterRefusals
  {
    if acts != [] {
      ReachableReasons(acts[..|acts| - 1]);
    }
  }

  /** Some refusal became durable after the first commit did. */
  ghost predicate RefusedAfterFirstCommit(acts: seq<Act>) {
    exists k :: 0 <= k < |acts| && RefusesIn(acts[k]) && Log(acts[..k]) != []
  }

  lemma {:induction false} RefusedAfterExtends(acts: seq<Act>)
    requires acts != []
    ensures var earlier := acts[..|acts| - 1];
            RefusedAfterFirstCommit(acts) <==>
              RefusedAfterFirstCommit(earlier) || (RefusesIn(acts[|acts| - 1]) && Log(earlier) != [])
  {
    hide RefusesIn, Log;
    var earlier := acts[..|acts| - 1];
    if RefusedAfterFirstCommit(earlier) {
      var k :| 0 <= k < |earlier| && RefusesIn(earlier[k]) && Log(earlier[..k]) != [];
      assert acts[..k] == earlier[..k] && acts[k] == earlier[k];
    }
    if RefusedAfterFirstCommit(acts) {
      var k :| 0 <= k < |acts| && RefusesIn(acts[k]) && Log(acts[..k]) != [];
      if k < |earlier| {
        assert acts[..k] == earlier[..k] && acts[k] == earlier[k];
      }
    }
  }

  /** The verdict read off the history: virgin until the first commit; bound to the first commit's
      cycle exactly when that commit carried the seed and no refusal came later. */
  lemma {:induction false} VerdictFromHistory(acts: seq<Act>)
    ensures var v, log := VerifiedSeedBinding(Run(acts).t), Log(acts);
            && (v == VirginStore <==> log == [])
            && (v.VerifiedBound? <==> log != [] && log[0].seed.Some? && !RefusedAfterFirstCommit(acts))
            && (v.VerifiedBound? ==> v.cycleId == log[0].cycleId)
  {
    RunStep(acts);
    HistoryOfAutomaton(acts);
  }

  lemma {:induction false} HistoryOfAutomaton(acts: seq<Act>)
    ensures var v, log := Automaton(acts), Log(acts);
            && (v == VirginStore <==> log == [])
            && (v.VerifiedBound? <==> log != [] && log[0].seed.Some? && !RefusedAfterFirstCommit(acts))
            && (v.VerifiedBound? ==> v.cycleId == log[0].cycleId)
  {
    if acts != [] {
      var earlier := acts[..|acts| - 1];
      HistoryOfAutomaton(earlier);
      RefusedAfterExtends(acts);
      if RefusedAfterFirstCommit(earlier) {
        var k :| 0 <= k < |earlier| && RefusesIn(earlier[k]) && Log(earlier[..k]) != [];
        LogGrows(earlier, k);
      }
    }
  }

  /** Once invalid, always invalid; once bound, the bound cycle never changes. */
  lemma {:induction false} VerdictNeverRecovers(acts: seq<Act>, i: nat)
    requires i <= |acts|
    ensures var early, late := VerifiedSeedBinding(Run(acts[..i]).t), VerifiedSeedBinding(Run(acts).t);
            && (early.Invalid? ==> late == early)
            && (early.VerifiedBound? && late.VerifiedBound? ==> late == early)
            && (early.VerifiedBound? ==> !late.VirginStore?)
  {
    RunStep(acts);
    RunStep(acts[..i]);
    AutomatonMonotone(acts, i);
  }

  lemma {:induction false} AutomatonMonotone(acts: seq<Act>, i: nat)
    requires i <= |acts|
    ensures var early, late := Automaton(acts[..i]), Automaton(acts);
            && (early.Invalid? ==> late == early)
            && (early.VerifiedBound? ==> late == early || late.Invalid?)
  {
    if i == |acts| {
      assert acts[..i] == acts;
    } else {
      var earlier := acts[..|acts| - 1];
      AutomatonMonotone(earlier, i);
      assert earlier[..i] == acts[..i];
    }
  }
}
