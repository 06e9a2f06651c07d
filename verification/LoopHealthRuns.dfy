/**
  Loop health over runs and restarts: the row a process reads back is exactly what the history of
  effective calls says, so a verdict never borrows another boot's evidence.
*/
module LoopHealthRuns {
  import opened BoundedText
  import opened LoopHealth
  import opened Outcomes

  /** One call, with the text it stores already cut to size. */
  datatype Act =
    | Register(id: LoopId, wiring: Wiring, now: int)
    | Begin(id: LoopId, boot: string, now: int, failAt: nat)
    | Finish(id: LoopId, generation: nat, boot: string, now: int)
    | Fail(id: LoopId, generation: nat, boot: string, now: int, error: Text)
    | Pressure(id: LoopId, coalesced: nat, dropped: nat, now: int)
    | Suspend(id: LoopId, now: int, reason: Text)
    | Reconcile(now: int)

  function Step(rows: Rows, a: Act): Rows {
    match a
    case Register(id, wiring, now) => Registered(rows, id, wiring, now)
    case Begin(id, boot, now, failAt) => if MayBegin(rows, id) && failAt >= 4 then Begun(rows, id, boot, now) else rows
    case Finish(id, g, boot, now) => if Open(rows, id, g) then Terminated(rows, id, g, boot, now, None) else rows
    case Fail(id, g, boot, now, error) =>
      if Open(rows, id, g) then Terminated(rows, id, g, boot, now, Some(error)) else rows
    case Pressure(id, c, d, now) =>
      if id in rows && c <= I64_MAX && d <= I64_MAX then Pressured(rows, id, c, d, now) else rows
    case Suspend(id, now, reason) => if id in rows then SuspendedAt(rows, id, now, reason) else rows
    case Reconcile(now) => Reconciled(rows, now)
  }

  /** The table after `acts`, from an empty one. */
  function Run(acts: seq<Act>): Rows {
    if acts == [] then map[] else Step(Run(acts[..|acts| - 1]), acts[|acts| - 1])
  }

  // ----- history -------------------------------------------------------------------------------------------

  /** What a call did to one loop, if anything. */
  datatype Effect = Readied | Unwired | Halted | Began | Finished | Errored | Restarted

  const TERMINALS := {Finished, Errored, Restarted}

  function EffectOn(rows: Rows, a: Act, id: LoopId): Option<Effect> {
    match a
    case Register(i, wiring, _) => if i == id then Some(if wiring == Ready then Readied else Unwired) else None
    case Begin(i, _, _, failAt) => if i == id && MayBegin(rows, id) && failAt >= 4 then Some(Began) else None
    case Finish(i, g, _, _) => if i == id && Open(rows, id, g) then Some(Finished) else None
    case Fail(i, g, _, _, _) => if i == id && Open(rows, id, g) then Some(Errored) else None
    case Pressure(_, _, _, _) => None
    case Suspend(i, _, _) => if i == id && id in rows then Some(Halted) else None
    case Reconcile(_) => if id in rows && Incomplete(rows[id]) then Some(Restarted) else None
  }

  predicate IsIn(e: Option<Effect>, effects: set<Effect>) { e.Some? && e.value in effects }

  predicate HasEffect(rows: Rows, a: Act, id: LoopId, effects: set<Effect>) { IsIn(EffectOn(rows, a, id), effects) }

  /** Position of the latest call that had one of `effects` on the loop, or -1. */
  function Last(acts: seq<Act>, id: LoopId, effects: set<Effect>): (i: int)
    ensures -1 <= i < |acts|
  {
    if acts == [] then -1
    else
      var earlier := acts[..|acts| - 1];
      if HasEffect(Run(earlier), acts[|acts| - 1], id, effects) then |acts| - 1 else Last(earlier, id, effects)
  }

  /** It did have the effect, and no later call had it. */
  lemma {:induction false} LastIsLatest(acts: seq<Act>, id: LoopId, effects: set<Effect>, j: nat)
    requires j < |acts|
    ensures var i := Last(acts, id, effects);
            && (i >= 0 ==> HasEffect(Run(acts[..i]), acts[i], id, effects))
            && (j > i ==> !HasEffect(Run(acts[..j]), acts[j], id, effects))
  {
    hide HasEffect, Run;
    var earlier := acts[..|acts| - 1];
    var i := Last(earlier, id, effects);
    assert i >= 0 ==> earlier[..i] == acts[..i];
    if j < |earlier| {
      LastIsLatest(earlier, id, effects, j);
      assert earlier[..j] == acts[..j];
    } else if |earlier| > 0 {
      LastIsLatest(earlier, id, effects, 0);
    }
  }

  function BootOf(a: Act): Option<string> {
    match a
    case Begin(_, boot, _, _) => Some(boot)
    case Finish(_, _, boot, _) => Some(boot)
    case Fail(_, _, boot, _, _) => Some(boot)
    case _ => None
  }

  /** The boot of the latest call with one of `effects`. */
  function LastBoot(acts: seq<Act>, id: LoopId, effects: set<Effect>): Option<string> {
    var i := Last(acts, id, effects);
    if i < 0 then None else BootOf(acts[i])
  }

  function BeginCount(acts: seq<Act>, id: LoopId): nat {
    if acts == [] then 0
    else
      var earlier := acts[..|acts| - 1];
      BeginCount(earlier, id) + if HasEffect(Run(earlier), acts[|acts| - 1], id, {Began}) then 1 else 0
  }

  /** When each effect last happened to the loop, and which boot last began or ended a pass. */
  datatype Marks = Marks(
    readied: int, unwired: int, halted: int, began: int, finished: int, faulted: int, ended: int,
    begunBy: Option<string>, endedBy: Option<string>)

  function MarksOf(acts: seq<Act>, id: LoopId): Marks {
    Marks(Last(acts, id, {Readied}), Last(acts, id, {Unwired}), Last(acts, id, {Halted}), Last(acts, id, {Began}),
          Last(acts, id, {Finished}), Last(acts, id, {Errored, Restarted}), Last(acts, id, TERMINALS),
          LastBoot(acts, id, {Began}), LastBoot(acts, id, {Finished, Errored}))
  }

  /** The marks after one more call, at position `n`. */
  function Bump(m: Marks, effect: Option<Effect>, n: int, boot: Option<string>): Marks {
    match effect
    case None => m
    case Some(Readied) => m.(readied := n)
    case Some(Unwired) => m.(unwired := n)
    case Some(Halted) => m.(halted := n)
    case Some(Began) => m.(began := n, begunBy := boot)
    case Some(Finished) => m.(finished := n, ended := n, endedBy := boot)
    case Some(Errored) => m.(faulted := n, ended := n, endedBy := boot)
    case Some(Restarted) => m.(faulted := n, ended := n)
  }

  const UNTOUCHED := Marks(-1, -1, -1, -1, -1, -1, -1, None, None)

  /** Every column the verdict reads, told from the history alone. */
  predicate Agrees(rows: Rows, id: LoopId, m: Marks) {
    if id !in rows then m == UNTOUCHED
    else
      var r := rows[id];
      && (r.wiring == Ready <==> m.readied > m.unwired)
      && (r.runtime == Suspended <==> m.halted > m.readied)
      && (Incomplete(r) <==> m.began > m.ended)
      && r.boot == m.begunBy && r.terminalBoot == m.endedBy
      && (r.terminal == NoTerminal <==> m.ended < 0)
      && (r.terminal == Passed <==> m.finished > m.faulted)
      && r.terminalGeneration <= r.generation
  }

  predicate Before(m: Marks, n: int) {
    && -1 <= m.readied < n && -1 <= m.unwired < n && -1 <= m.halted < n && -1 <= m.began < n
    && -1 <= m.finished < n && -1 <= m.faulted < n && -1 <= m.ended < n
  }

  lemma LastOfSnoc(earlier: seq<Act>, a: Act, id: LoopId, effects: set<Effect>)
    ensures Last(earlier + [a], id, effects)
            == if IsIn(EffectOn(Run(earlier), a, id), effects) then |earlier| else Last(earlier, id, effects)
  {
    assert (earlier + [a])[..|earlier|] == earlier;
  }

  lemma LastBootOfSnoc(earlier: seq<Act>, a: Act, id: LoopId, effects: set<Effect>)
    ensures LastBoot(earlier + [a], id, effects)
            == if IsIn(EffectOn(Run(earlier), a, id), effects) then BootOf(a) else LastBoot(earlier, id, effects)
  {
    LastOfSnoc(earlier, a, id, effects);
  }

  lemma MarksOfSnoc(earlier: seq<Act>, a: Act, id: LoopId)
    ensures MarksOf(earlier + [a], id) == Bump(MarksOf(earlier, id), EffectOn(Run(earlier), a, id), |earlier|, BootOf(a))
  {
    hide Last, LastBoot, Run, EffectOn, BootOf, IsIn, Bump;
    LastOfSnoc(earlier, a, id, {Readied});
    LastOfSnoc(earlier, a, id, {Unwired});
    LastOfSnoc(earlier, a, id, {Halted});
    LastOfSnoc(earlier, a, id, {Began});
    LastOfSnoc(earlier, a, id, {Finished});
    LastOfSnoc(earlier, a, id, {Errored, Restarted});
    LastOfSnoc(earlier, a, id, TERMINALS);
    LastBootOfSnoc(earlier, a, id, {Began});
    LastBootOfSnoc(earlier, a, id, {Finished, Errored});
    BumpIsEachMark(MarksOf(earlier, id), EffectOn(Run(earlier), a, id), |earlier|, BootOf(a));
  }

  lemma BumpIsEachMark(m: Marks, e: Option<Effect>, n: int, boot: Option<string>)
    ensures Bump(m, e, n, boot) == Marks(
              if IsIn(e, {Readied}) then n else m.readied, if IsIn(e, {Unwired}) then n else m.unwired,
              if IsIn(e, {Halted}) then n else m.halted, if IsIn(e, {Began}) then n else m.began,
              if IsIn(e, {Finished}) then n else m.finished, if IsIn(e, {Errored, Restarted}) then n else m.faulted,
              if IsIn(e, TERMINALS) then n else m.ended, if IsIn(e, {Began}) then boot else m.begunBy,
              if IsIn(e, {Finished, Errored}) then boot else m.endedBy)
  {
  }

  lemma RegisterAgrees(rows: Rows, a: Act, id: LoopId, m: Marks, n: nat)
    requires a.Register? && Agrees(rows, id, m) && Before(m, n)
    ensures Agrees(Step(rows, a), id, Bump(m, EffectOn(rows, a, id), n, BootOf(a)))
  {
  }

  lemma BeginAgrees(rows: Rows, a: Act, id: LoopId, m: Marks, n: nat)
    requires a.Begin? && Agrees(rows, id, m) && Before(m, n)
    ensures Agrees(Step(rows, a), id, Bump(m, EffectOn(rows, a, id), n, BootOf(a)))
  {
  }

  lemma FinishAgrees(rows: Rows, a: Act, id: LoopId, m: Marks, n: nat)
    requires a.Finish? && Agrees(rows, id, m) && Before(m, n)
    ensures Agrees(Step(rows, a), id, Bump(m, EffectOn(rows, a, id), n, BootOf(a)))
  {
  }

  lemma FailAgrees(rows: Rows, a: Act, id: LoopId, m: Marks, n: nat)
    requires a.Fail? && Agrees(rows, id, m) && Before(m, n)
    ensures Agrees(Step(rows, a), id, Bump(m, EffectOn(rows, a, id), n, BootOf(a)))
  {
  }

  lemma SuspendAgrees(rows: Rows, a: Act, id: LoopId, m: Marks, n: nat)
    requires a.Suspend? && Agrees(rows, id, m) && Before(m, n)
    ensures Agrees(Step(rows, a), id, Bump(m, EffectOn(rows, a, id), n, BootOf(a)))
  {
  }

  lemma PressureAgrees(rows: Rows, a: Act, id: LoopId, m: Marks, n: nat)
    requires a.Pressure? && Agrees(rows, id, m) && Before(m, n)
    ensures Agrees(Step(rows, a), id, Bump(m, EffectOn(rows, a, id), n, BootOf(a)))
  {
  }

  lemma ReconcileAgrees(rows: Rows, a: Act, id: LoopId, m: Marks, n: nat)
    requires a.Reconcile? && Agrees(rows, id, m) && Before(m, n)
    ensures Agrees(Step(rows, a), id, Bump(m, EffectOn(rows, a, id), n, BootOf(a)))
  {
    hide Ascii;
  }

  lemma StepAgrees(rows: Rows, a: Act, id: LoopId, m: Marks, n: nat)
    requires Agrees(rows, id, m) && Before(m, n)
    ensures Agrees(Step(rows, a), id, Bump(m, EffectOn(rows, a, id), n, BootOf(a)))
  {
    hide *;
    match a
    case Register(_, _, _) => RegisterAgrees(rows, a, id, m, n);
    case Begin(_, _, _, _) => BeginAgrees(rows, a, id, m, n);
    case Finish(_, _, _, _) => FinishAgrees(rows, a, id, m, n);
    case Fail(_, _, _, _, _) => FailAgrees(rows, a, id, m, n);
    case Suspend(_, _, _) => SuspendAgrees(rows, a, id, m, n);
    case Pressure(_, _, _, _) => PressureAgrees(rows, a, id, m, n);
    case Reconcile(_) => ReconcileAgrees(rows, a, id, m, n);
  }

  lemma {:induction false} RowFollowsHistory(acts: seq<Act>, id: LoopId)
    ensures Agrees(Run(acts), id, MarksOf(acts, id)) && Before(MarksOf(acts, id), |acts|)
  {
    if acts != [] {
      var earlier, a := acts[..|acts| - 1], acts[|acts| - 1];
      RowFollowsHistory(earlier, id);
      MarksOfSnoc(earlier, a, id);
      StepAgrees(Run(earlier), a, id, MarksOf(earlier, id), |earlier|);
      assert acts == earlier + [a];
    }
  }

  // ----- the verdict -----------------------------------------------------------------------------------------

  /** What boot `b` may say of the loop, by the order in which things last happened. */
  function HistoryVerdict(acts: seq<Act>, id: LoopId, b: string): Verdict {
    var ready := Last(acts, id, {Readied});
    if ready <= Last(acts, id, {Unwired}) then VNotWired
    else if ready < Last(acts, id, {Halted}) then VSuspended
    else if Last(acts, id, TERMINALS) < Last(acts, id, {Began}) then
      if LastBoot(acts, id, {Began}) == Some(b) then VIncomplete else VNeverRunThisBoot
    else if LastBoot(acts, id, {Finished, Errored}) != Some(b) then VNeverRunThisBoot
    else if Last(acts, id, {Errored, Restarted}) < Last(acts, id, {Finished}) then VPassed
    else VError
  }

  /** On every run the verdict is the one the history gives. */
  lemma VerdictIsHistory(acts: seq<Act>, id: LoopId, b: string)
    requires id in Run(acts)
    ensures CurrentBootStatus(Run(acts)[id], b) == HistoryVerdict(acts, id, b)
  {
    RowFollowsHistory(acts, id);
    NamedIsTerminal(acts, id);
  }

  lemma {:induction false} NamedIsTerminal(acts: seq<Act>, id: LoopId)
    ensures Last(acts, id, {Finished, Errored}) <= Last(acts, id, TERMINALS)
  {
    if acts != [] {
      NamedIsTerminal(acts[..|acts| - 1], id);
    }
  }

  // ----- generations -----------------------------------------------------------------------------------------

  lemma StepAdvances(rows: Rows, a: Act, id: LoopId)
    requires id in rows && rows[id].terminalGeneration <= rows[id].generation
    ensures var later := Step(rows, a);
            && id in later
            && rows[id].generation <= later[id].generation
            && rows[id].terminalGeneration <= later[id].terminalGeneration <= later[id].generation
            && (HasEffect(rows, a, id, TERMINALS)
                ==> rows[id].terminalGeneration < later[id].terminalGeneration == rows[id].generation)
            && (!HasEffect(rows, a, id, TERMINALS) ==> later[id].terminalGeneration == rows[id].terminalGeneration)
  {
    hide Ascii, Utf8;
  }

  /** Neither generation ever falls, and the terminal one never passes the other. */
  lemma {:induction false} GenerationsNeverFall(acts: seq<Act>, i: nat, id: LoopId)
    requires i <= |acts| && id in Run(acts[..i])
    ensures id in Run(acts)
    ensures var r, s := Run(acts[..i])[id], Run(acts)[id];
            && r.generation <= s.generation && r.terminalGeneration <= s.terminalGeneration <= s.generation
    decreases |acts|
  {
    if i == |acts| {
      assert acts[..i] == acts;
      RowFollowsHistory(acts, id);
    } else {
      var earlier := acts[..|acts| - 1];
      assert earlier[..i] == acts[..i];
      GenerationsNeverFall(earlier, i, id);
      StepAdvances(Run(earlier), acts[|acts| - 1], id);
    }
  }

  /** Each generation gets at most one terminal: two that land on a loop close different generations, in order. */
  lemma TerminalsAscend(acts: seq<Act>, i: nat, j: nat, id: LoopId)
    requires i < j < |acts|
    requires HasEffect(Run(acts[..i]), acts[i], id, TERMINALS) && HasEffect(Run(acts[..j]), acts[j], id, TERMINALS)
    ensures id in Run(acts[..i]) && id in Run(acts[..j])
    ensures Run(acts[..i])[id].generation < Run(acts[..j])[id].generation
  {
    hide *;
    TerminalNeedsRow(acts[..i], acts[i], id);
    TerminalNeedsRow(acts[..j], acts[j], id);
    StepOfPrefix(acts, i);
    StepAdvances(Run(acts[..i]), acts[i], id);
    assert acts[..j][..i + 1] == acts[..i + 1];
    GenerationsNeverFall(acts[..j], i + 1, id);
    StepAdvances(Run(acts[..j]), acts[j], id);
  }

  lemma TerminalNeedsRow(acts: seq<Act>, a: Act, id: LoopId)
    requires HasEffect(Run(acts), a, id, TERMINALS)
    ensures id in Run(acts) && Run(acts)[id].terminalGeneration < Run(acts)[id].generation
  {
    hide Run;
  }

  lemma StepOfPrefix(acts: seq<Act>, i: nat)
    requires i < |acts|
    ensures Run(acts[..i + 1]) == Step(Run(acts[..i]), acts[i])
  {
    assert acts[..i + 1][..i] == acts[..i];
  }

  /** A finish or fail for a generation already closed, or not the newest, changes nothing. */
  lemma StaleTerminalIsInert(acts: seq<Act>, i: nat, a: Act)
    requires (a.Finish? || a.Fail?) && i < |acts|
    requires HasEffect(Run(acts[..i]), acts[i], a.id, TERMINALS) && a.generation <= Run(acts[..i])[a.id].generation
    ensures Step(Run(acts), a) == Run(acts)
  {
    if HasEffect(Run(acts), a, a.id, TERMINALS) {
      var all := acts + [a];
      assert all[..i] == acts[..i] && all[..|acts|] == acts;
      TerminalsAscend(all, i, |acts|, a.id);
    }
  }

  /** The n-th pass that begins on a loop is generation n. */
  lemma {:induction false} GenerationCountsBegins(acts: seq<Act>, id: LoopId)
    ensures BeginCount(acts, id) == Generation(Run(acts), id)
  {
    hide Step, Generation, HasEffect;
    NoRowNoGeneration(id);
    if acts != [] {
      GenerationCountsBegins(acts[..|acts| - 1], id);
      StepCounts(Run(acts[..|acts| - 1]), acts[|acts| - 1], id);
    }
  }

  function Generation(rows: Rows, id: LoopId): nat { if id in rows then rows[id].generation else 0 }

  lemma NoRowNoGeneration(id: LoopId)
    ensures Generation(map[], id) == 0
  {
  }

  lemma StepCounts(rows: Rows, a: Act, id: LoopId)
    ensures Generation(Step(rows, a), id) == Generation(rows, id) + if HasEffect(rows, a, id, {Began}) then 1 else 0
  {
    hide Ascii;
  }

  lemma GenerationsInOrder(acts: seq<Act>, id: LoopId)
    ensures id in Run(acts) ==> Run(acts)[id].terminalGeneration <= Run(acts)[id].generation
  {
    RowFollowsHistory(acts, id);
  }

  /** The closed generation is the one the latest terminal was for. */
  lemma {:induction false} TerminalGenerationIsLatest(acts: seq<Act>, id: LoopId)
    ensures var i := Last(acts, id, TERMINALS);
            i >= 0 ==> && id in Run(acts) && id in Run(acts[..i])
                       && Run(acts)[id].terminalGeneration == Run(acts[..i])[id].generation
  {
    hide Step, HasEffect;
    if acts != [] {
      var earlier, a := acts[..|acts| - 1], acts[|acts| - 1];
      TerminalGenerationIsLatest(earlier, id);
      GenerationsInOrder(earlier, id);
      if HasEffect(Run(earlier), a, id, TERMINALS) { TerminalNeedsRow(earlier, a, id); }
      var i := Last(earlier, id, TERMINALS);
      assert i >= 0 ==> earlier[..i] == acts[..i];
      if id in Run(earlier) {
        StepAdvances(Run(earlier), a, id);
      }
    }
  }

  /**
    Passed, exactly: the loop is wired and running, and the last terminal write of all was a finish by this
    boot for the newest generation.
  */
  lemma PassedExactly(acts: seq<Act>, id: LoopId, b: string)
    requires id in Run(acts)
    ensures var r, i := Run(acts)[id], Last(acts, id, TERMINALS);
            CurrentBootStatus(r, b) == VPassed
            <==> r.wiring == Ready && r.runtime == Active
                 && i >= 0 && acts[i].Finish? && acts[i].boot == b && acts[i].generation == r.generation
  {
    var r, i := Run(acts)[id], Last(acts, id, TERMINALS);
    RowFollowsHistory(acts, id);
    TerminalGenerationIsLatest(acts, id);
    LatestIsOfItsKind(acts, id);
  }

  /**
    Error, exactly: the loop is wired and running with nothing in flight, this boot recorded the last finish or
    fail, and the last terminal write of all was a fail or a restart reconcile.
  */
  lemma ErrorExactly(acts: seq<Act>, id: LoopId, b: string)
    requires id in Run(acts)
    ensures var r, i := Run(acts)[id], Last(acts, id, TERMINALS);
            CurrentBootStatus(r, b) == VError
            <==> && r.wiring == Ready && r.runtime == Active && !Incomplete(r)
                 && LastBoot(acts, id, {Finished, Errored}) == Some(b)
                 && i >= 0 && (acts[i].Fail? || acts[i].Reconcile?)
  {
    RowFollowsHistory(acts, id);
    LatestIsOfItsKind(acts, id);
    LatestIsTerminal(acts, id);
    hide Last, LastBoot, Run;
  }

  lemma LatestIsTerminal(acts: seq<Act>, id: LoopId)
    ensures var i := Last(acts, id, TERMINALS); i >= 0 ==> acts[i].Finish? || acts[i].Fail? || acts[i].Reconcile?
  {
    var i := Last(acts, id, TERMINALS);
    if i >= 0 { LastIsLatest(acts, id, TERMINALS, i); }
  }

  /** The boot itself reported that its newest pass failed, and nothing ended a pass since. */
  predicate FailedItself(acts: seq<Act>, id: LoopId, b: string) {
    var i := Last(acts, id, TERMINALS);
    i >= 0 && acts[i].Fail? && acts[i].boot == b
  }

  /**
    The Error comes from the boot's own failure exactly when the last terminal write is a fail; otherwise it is
    a restart's. Conversely a boot that failed itself is judged Error exactly while nothing new is in flight
    and the loop is wired and running.
  */
  lemma ErrorIsOwnExactly(acts: seq<Act>, id: LoopId, b: string)
    requires id in Run(acts)
    ensures var r, i := Run(acts)[id], Last(acts, id, TERMINALS);
            && (CurrentBootStatus(r, b) == VError ==> i >= 0 && (FailedItself(acts, id, b) <==> acts[i].Fail?))
            && (CurrentBootStatus(r, b) == VError && !FailedItself(acts, id, b) ==> acts[i].Reconcile?)
            && (FailedItself(acts, id, b) ==>
                  (CurrentBootStatus(r, b) == VError <==> r.wiring == Ready && r.runtime == Active && !Incomplete(r)))
  {
    ErrorExactly(acts, id, b);
    FailIsNamed(acts, id);
    hide Last, LastBoot, Run, CurrentBootStatus;
  }

  lemma {:induction false} FailIsNamed(acts: seq<Act>, id: LoopId)
    ensures var i := Last(acts, id, TERMINALS);
            i >= 0 && acts[i].Fail? ==> LastBoot(acts, id, {Finished, Errored}) == Some(acts[i].boot)
  {
    hide Run;
    if acts != [] {
      var earlier := acts[..|acts| - 1];
      FailIsNamed(earlier, id);
    }
  }

  lemma {:induction false} LatestIsOfItsKind(acts: seq<Act>, id: LoopId)
    ensures var i := Last(acts, id, TERMINALS);
            && (Last(acts, id, {Errored, Restarted}) < Last(acts, id, {Finished}) <==> i >= 0 && acts[i].Finish?)
            && (i >= 0 && acts[i].Finish? ==> LastBoot(acts, id, {Finished, Errored}) == Some(acts[i].boot))
            && (i >= 0 && acts[i].Finish? && id in Run(acts[..i]) ==> acts[i].generation == Run(acts[..i])[id].generation)
  {
    hide EffectOn, HasEffect, Run;
    if acts != [] {
      var earlier := acts[..|acts| - 1];
      LatestIsOfItsKind(earlier, id);
      KindOfTerminal(Run(earlier), acts[|acts| - 1], id);
      var i := Last(earlier, id, TERMINALS);
      assert i >= 0 ==> earlier[..i] == acts[..i];
    }
  }

  lemma KindOfTerminal(rows: Rows, a: Act, id: LoopId)
    ensures HasEffect(rows, a, id, TERMINALS) <==> HasEffect(rows, a, id, {Finished}) || HasEffect(rows, a, id, {Errored, Restarted})
    ensures HasEffect(rows, a, id, {Finished}) ==> && a.Finish? && id in rows && a.generation == rows[id].generation
                                                   && HasEffect(rows, a, id, {Finished, Errored})
    ensures HasEffect(rows, a, id, {Errored, Restarted}) ==> !a.Finish? && !HasEffect(rows, a, id, {Finished})
    ensures HasEffect(rows, a, id, {Finished, Errored}) ==> HasEffect(rows, a, id, TERMINALS)
  {
  }

  // ----- restarts ----------------------------------------------------------------------------------------------

  /** A boot that no call names inherits neither success nor failure. */
  lemma FreshBootInheritsNothing(acts: seq<Act>, id: LoopId, b: string)
    requires id in Run(acts) && forall i :: 0 <= i < |acts| ==> BootOf(acts[i]) != Some(b)
    ensures CurrentBootStatus(Run(acts)[id], b) in {VNotWired, VSuspended, VNeverRunThisBoot}
  {
    hide *;
    VerdictIsHistory(acts, id, b);
    NeverNamed(acts, id, {Began}, b);
    NeverNamed(acts, id, {Finished, Errored}, b);
    StrangerVerdict(acts, id, b);
  }

  lemma NeverNamed(acts: seq<Act>, id: LoopId, effects: set<Effect>, b: string)
    requires forall i :: 0 <= i < |acts| ==> BootOf(acts[i]) != Some(b)
    ensures LastBoot(acts, id, effects) != Some(b)
  {
    hide Last, BootOf;
  }

  lemma StrangerVerdict(acts: seq<Act>, id: LoopId, b: string)
    requires LastBoot(acts, id, {Began}) != Some(b) && LastBoot(acts, id, {Finished, Errored}) != Some(b)
    ensures HistoryVerdict(acts, id, b) in {VNotWired, VSuspended, VNeverRunThisBoot}
  {
    hide Last, LastBoot;
  }

  /** After the restart reconcile nothing is in flight, and doing it again changes nothing. */
  lemma ReconcileSettles(rows: Rows, now: int, again: int)
    ensures IncompleteIds(Reconciled(rows, now)) == {}
    ensures Reconciled(Reconciled(rows, now), again) == Reconciled(rows, now)
  {
    hide Ascii;
    assert forall id :: id in rows ==> !Incomplete(Closed(rows[id], now));
  }

  /** An Error verdict need not come from that boot's own failure: the reconcile keeps its name on the row. */
  lemma ErrorWithoutOwnFailure()
    ensures exists acts: seq<Act> ::
              && (forall i :: 0 <= i < |acts| ==> !acts[i].Fail?)
              && Fee in Run(acts) && CurrentBootStatus(Run(acts)[Fee], "a") == VError
  {
    hide *;
    var one := [Register(Fee, Ready, 0)];
    var two := one + [Begin(Fee, "a", 1, 4)];
    var three := two + [Finish(Fee, 1, "a", 2)];
    var four := three + [Begin(Fee, "a", 3, 4)];
    var five := four + [Reconcile(4)];
    RunOfSnoc([], one[0]);
    RunOfSnoc(one, two[1]);
    RunOfSnoc(two, three[2]);
    RunOfSnoc(three, four[3]);
    RunOfSnoc(four, five[4]);
    assert [] + one == one;
    SecondPassCutShort(Run(one), Run(two), Run(three), Run(four), Run(five));
    assert CurrentBootStatus(Run(five)[Fee], "a") == VError;
  }

  lemma SecondPassCutShort(one: Rows, two: Rows, three: Rows, four: Rows, five: Rows)
    requires one == Step(map[], Register(Fee, Ready, 0)) && two == Step(one, Begin(Fee, "a", 1, 4))
    requires three == Step(two, Finish(Fee, 1, "a", 2)) && four == Step(three, Begin(Fee, "a", 3, 4))
    requires five == Step(four, Reconcile(4))
    ensures Fee in five && CurrentBootStatus(five[Fee], "a") == VError
  {
    hide Ascii;
    assert two[Fee].generation == 1 && two[Fee].terminalGeneration == 0;
    assert four[Fee].generation == 2 && four[Fee].terminalGeneration == 1;
  }

  lemma RunOfSnoc(acts: seq<Act>, a: Act)
    ensures Run(acts + [a]) == Step(Run(acts), a) && Run([]) == map[]
  {
    assert (acts + [a])[..|acts|] == acts;
  }
}
