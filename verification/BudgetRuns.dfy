/** Budget safety, exact accounting and the reservation lifecycle, on every run of the rail. */
module BudgetRuns {
  import opened Outcomes
  import opened MapSums
  import opened Normal
  import opened BudgetRail
  import opened Numbers

  datatype Act =
    | Reserve(q: ReserveRequest, now: int, failAt: nat)
    | Settle(id: string, actual: Option<int>, source: Option<string>, record: bool, now: int,
             writes: seq<Write>, failAt: nat)
    | Release(id: string, failAt: nat)
    | ReleaseBudget(id: string, failAt: nat)
    | MarkBudget(id: string, spent: int, failAt: nat, legacyFails: bool)
    | Cleanup(cutoff: int, pending: Option<set<string>>, failAt: nat)
    | SpendCleanup(cutoff: int, category: Option<string>, failAt: nat)
    | Clear(failAt: nat)
    | OutsideEvent(id: string, e: Event, writes: seq<Write>)
    | OutsideCost(cost: Cost)
    | Reopen

  ghost function Step(c: Conn, a: Act): Conn {
    match a
    case Reserve(q, now, failAt) => ReserveSpec(c, q, now, failAt).0
    case Settle(id, actual, source, record, now, writes, failAt) =>
      SettleSpec(c, id, actual, source, record, now, writes, failAt).0
    case Release(id, failAt) => AfterRelease(c, id, failAt)
    case ReleaseBudget(id, failAt) => AfterReleaseBudget(c, id, failAt)
    case MarkBudget(id, spent, failAt, legacyFails) => AfterMarkBudget(c, id, spent, failAt, legacyFails)
    case Cleanup(cutoff, pending, failAt) => AfterCleanup(c, cutoff, pending, failAt)
    case SpendCleanup(cutoff, category, failAt) => AfterSpendCleanup(c, cutoff, category, failAt)
    case Clear(failAt) => AfterClear(c, failAt)
    case OutsideEvent(id, e, writes) => AfterEvent(c, id, e, writes)
    case OutsideCost(cost) => c.(db := c.db.(costs := c.db.costs + [cost]))
    case Reopen => Reopened(c)
  }

  ghost function Run(c: Conn, acts: seq<Act>): Conn {
    if acts == [] then c else Step(Run(c, acts[..|acts| - 1]), acts[|acts| - 1])
  }

  /** What survives when the connection goes away. */
  function Durable(c: Conn): Tables { if c.open.Some? then c.open.value else c.db }

  // ----- exact effect of single writes on the total --------------------------------------------------

  lemma TotalOfReserved(t: Tables, q: ReserveRequest, meta: Meta, now: int, since: int)
    ensures Total(Reserved(t, q, meta, now), since)
            == Total(t, since) - Replaced(t, Trim(q.reservationId)) + SanitizeAmount(q.amountSats)
  {
    hide Trim, Category, SanitizeAmount;
    var rid, amount := Trim(q.reservationId), SanitizeAmount(q.amountSats);
    var t' := Reserved(t, q, meta, now);
    assert SpendHolds(t'.spend) == SpendHolds(t.spend)[rid := amount];
    SumUpdate(SpendHolds(t.spend), rid, amount);
  }

  lemma TotalOfSpent(t: Tables, rid: string, since: int)
    requires rid in t.spend && t.spend[rid].status == "active"
    ensures Total(t.(spend := t.spend[rid := t.spend[rid].(status := "spent")]), since) == Total(t, since) - t.spend[rid].sats
  {
    var spend' := t.spend[rid := t.spend[rid].(status := "spent")];
    assert SpendHolds(spend') == SpendHolds(t.spend)[rid := 0];
    SumUpdate(SpendHolds(t.spend), rid, 0);
  }

  /** What event `id` adds to the window, 0 when there is none. */
  function Charged(t: Tables, id: string, since: int): int {
    if id in t.events && t.events[id].at >= since then t.events[id].sats else 0
  }

  lemma TotalOfRecorded(t: Tables, id: string, e: Event, since: int)
    ensures Total(Recorded(t, id, e), since)
            == Total(t, since) - Charged(t, Trim(id), since) + Charged(Recorded(t, id, e), Trim(id), since)
  {
    hide Trim, SanitizeAmount, Category, Sum;
    var t' := Recorded(t, id, e);
    var w := if e.at >= since then SanitizeAmount(e.sats) else 0;
    assert Windowed(t'.events, since) == Windowed(t.events, since)[Trim(id) := w];
    SumUpdate(Windowed(t.events, since), Trim(id), w);
  }

  /** A settlement that records its event moves the reserved sats out of the holds and the charged
      sats into the window, and nothing else: the exact change of the total. */
  lemma SettleMovesTotal(c: Conn, id: string, actual: Option<int>, source: Option<string>, now: int,
                         writes: seq<Write>, failAt: nat, since: int)
    requires SettleSpec(c, id, actual, source, true, now, writes, failAt).1 == Ok(true)
    ensures var rid := Trim(id);
            var t, t' := c.db, SettleSpec(c, id, actual, source, true, now, writes, failAt).0.db;
            var eid := SettlementId(rid);
            && rid in t.spend && t.spend[rid].status == "active"
            && rid in t'.spend && t'.spend[rid].status == "spent"
            && var charge := SanitizeAmount(if actual.Some? then actual.value else t.spend[rid].sats);
            && eid in t'.events && t'.events[eid].sats == charge > 0 && t'.events[eid].at == now
            && Total(t', since) == Total(t, since) - t.spend[rid].sats - Charged(t, eid, since)
                                   + (if now >= since then charge else 0)
  {
    hide Trim, Category, SanitizeAmount;
    var rid := Trim(id);
    var t := c.db;
    var flipped := t.(spend := t.spend[rid := t.spend[rid].(status := "spent")]);
    SettlementIdIsTrimmed(rid);
    TotalOfSpent(t, rid, since);
    TotalOfRecorded(flipped, SettlementId(rid), Settlement(t.spend[rid], rid, actual, source, now), since);
  }

  // ----- reserve accounting -------------------------------------------------------------------------

  /** On a budgeted grant the answer is the headroom recomputed from the new tables, the smaller of
      the daily and the weekly one, and it is not negative. A refusal changes nothing. */
  lemma ReserveAccountingIsExact(c: Conn, q: ReserveRequest, now: int, failAt: nat)
    ensures var (c', r) := ReserveSpec(c, q, now, failAt);
            && (r.Ok? && !r.value.0 ==> c' == c)
            && (r.Ok? && r.value.0 && q.budget.Some? ==>
                  var daily := q.budget.value - Total(c'.db, Since(q, now));
                  && c'.open.None?
                  && r.value.1 >= 0
                  && r.value.1 == if q.weeklyLimit.None? || q.weeklySince.None? then daily
                                  else Min(daily, q.weeklyLimit.value - Total(c'.db, q.weeklySince.value)))
  {
    hide Trim, Category, SanitizeAmount, Total;
    if WellFormed(q) && q.meta.Ok? && q.budget.Some? {
      TotalOfReserved(c.db, q, q.meta.value, now, Since(q, now));
      if q.weeklySince.Some? {
        TotalOfReserved(c.db, q, q.meta.value, now, q.weeklySince.value);
      }
    }
  }

  /** A budgeted request that is well formed and not terminal is granted exactly when the total with
      the new amount in place of the old one stays within every cap. */
  lemma GrantedIffItFits(t: Tables, q: ReserveRequest, meta: Meta, now: int)
    requires q.budget.Some?
    ensures var rid := Trim(q.reservationId);
            DecisionOn(t, q, now).granted <==>
              && !(rid in t.spend && IsTerminal(t.spend[rid].status))
              && Total(Reserved(t, q, meta, now), Since(q, now)) <= q.budget.value
              && (q.weeklyLimit.Some? && q.weeklySince.Some? ==>
                    Total(Reserved(t, q, meta, now), q.weeklySince.value) <= q.weeklyLimit.value)
  {
    hide Trim, Category, SanitizeAmount;
    TotalOfReserved(t, q, meta, now, Since(q, now));
    if q.weeklySince.Some? {
      TotalOfReserved(t, q, meta, now, q.weeklySince.value);
    }
  }

  // ----- safety -----------------------------------------------------------------------------------------

  /** No negative amount that could make a release raise the total. */
  ghost predicate NonNegative(t: Tables) {
    && (forall k :: k in t.spend ==> Hold(t.spend[k].status, t.spend[k].sats) >= 0)
    && (forall k :: k in t.legacy ==> Hold(t.legacy[k].status, t.legacy[k].sats) >= 0)
    && (forall k :: k in t.events ==> t.events[k].sats >= 0)
  }

  ghost predicate Within(t: Tables, cap: Cap) {
    NonNegative(t) && Total(t, cap.since) <= cap.limit
  }

  ghost predicate SafeConn(c: Conn, cap: Cap) {
    Within(c.db, cap) && (c.open.Some? ==> Within(c.open.value, cap))
  }

  /** One cap and window, budgeted reserves only, settlements that record no more than was
      reserved, no outside events or costs. */
  predicate SafeAct(c: Conn, a: Act, cap: Cap) {
    match a
    case Reserve(q, now, _) => q.budget == Some(cap.limit) && Since(q, now) == cap.since
    case Settle(id, actual, _, record, _, _, _) =>
      record && actual.Some? && Trim(id) in c.db.spend ==> actual.value <= c.db.spend[Trim(id)].sats
    case OutsideEvent(_, _, _) => false
    case OutsideCost(_) => false
    case _ => true
  }

  lemma ReleaseWithin(t: Tables, ids: set<string>, cap: Cap)
    requires Within(t, cap)
    ensures Within(ReleaseSpend(t, ids), cap)
  {
    SumMonotone(SpendHolds(ReleaseSpend(t, ids).spend), SpendHolds(t.spend));
  }

  lemma FlipWithin(t: Tables, ids: set<string>, status: string, cap: Cap)
    requires Within(t, cap) && status != "active"
    ensures Within(FlipLegacy(t, ids, status), cap)
  {
    SumMonotone(LegacyHolds(FlipLegacy(t, ids, status).legacy), LegacyHolds(t.legacy));
  }

  lemma ReserveWithin(c: Conn, q: ReserveRequest, now: int, failAt: nat, cap: Cap)
    requires SafeConn(c, cap) && q.budget == Some(cap.limit) && Since(q, now) == cap.since
    ensures SafeConn(ReserveSpec(c, q, now, failAt).0, cap)
  {
    hide Trim, Category, SanitizeAmount;
    if WellFormed(q) && q.meta.Ok? && DecisionOn(c.db, q, now).granted {
      GrantedIffItFits(c.db, q, q.meta.value, now);
      assert NonNegative(Reserved(c.db, q, q.meta.value, now));
    }
  }

  lemma SpentWithin(t: Tables, rid: string, cap: Cap)
    requires Within(t, cap) && rid in t.spend && t.spend[rid].status == "active"
    ensures Within(t.(spend := t.spend[rid := t.spend[rid].(status := "spent")]), cap)
  {
    TotalOfSpent(t, rid, cap.since);
  }

  lemma SpentAndChargedWithin(t: Tables, rid: string, e: Event, cap: Cap)
    requires Within(t, cap) && rid in t.spend && t.spend[rid].status == "active"
    requires 0 < SanitizeAmount(e.sats) <= t.spend[rid].sats
    ensures Within(Recorded(t.(spend := t.spend[rid := t.spend[rid].(status := "spent")]), SettlementId(rid), e), cap)
  {
    hide Trim, Category, SanitizeAmount, Total;
    var flipped := t.(spend := t.spend[rid := t.spend[rid].(status := "spent")]);
    TotalOfSpent(t, rid, cap.since);
    TotalOfRecorded(flipped, SettlementId(rid), e, cap.since);
    SpentWithin(t, rid, cap);
  }

  lemma SettleWithin(c: Conn, id: string, actual: Option<int>, source: Option<string>, record: bool, now: int,
                     writes: seq<Write>, failAt: nat, cap: Cap)
    requires SafeConn(c, cap)
    requires record && actual.Some? && Trim(id) in c.db.spend ==> actual.value <= c.db.spend[Trim(id)].sats
    ensures SafeConn(SettleSpec(c, id, actual, source, record, now, writes, failAt).0, cap)
  {
    hide Trim, Category, SanitizeAmount;
    var rid := Trim(id);
    if rid in c.db.spend && c.db.spend[rid].status == "active" {
      var row := c.db.spend[rid];
      var e := Settlement(row, rid, actual, source, now);
      SpentWithin(c.db, rid, cap);
      if !EventRejected(SettlementId(rid), e) && record {
        SpentAndChargedWithin(c.db, rid, e, cap);
      }
    }
  }

  lemma StepStaysSafe(c: Conn, a: Act, cap: Cap)
    requires SafeConn(c, cap) && SafeAct(c, a, cap)
    ensures SafeConn(Step(c, a), cap)
  {
    hide Trim, Category, SanitizeAmount, SettleSpec, ReserveSpec, Within, ReleaseSpend, FlipLegacy, StaleLegacy, StaleRebalance;
    match a
    case Reserve(q, now, failAt) => ReserveWithin(c, q, now, failAt, cap);
    case Settle(id, actual, source, record, now, writes, failAt) =>
      SettleWithin(c, id, actual, source, record, now, writes, failAt, cap);
    case Release(id, _) => ReleaseWithin(c.db, {id}, cap);
    case ReleaseBudget(id, _) => ReleaseWithin(c.db, {id}, cap); FlipWithin(c.db, {id}, "released", cap);
    case MarkBudget(id, spent, failAt, _) =>
      var c' := SettleSpec(c, id, Some(spent), None, false, 0, [], failAt).0;
      SettleWithin(c, id, Some(spent), None, false, 0, [], failAt, cap);
      FlipWithin(c'.db, {id}, "spent", cap);
    case Cleanup(cutoff, pending, _) =>
      if pending.Some? {
        var legacy := StaleLegacy(c.db, cutoff, pending.value);
        FlipWithin(c.db, legacy, "released", cap);
        ReleaseWithin(FlipLegacy(c.db, legacy, "released"), StaleRebalance(c.db, cutoff, pending.value), cap);
      }
    case SpendCleanup(cutoff, category, _) => ReleaseWithin(c.db, StaleSpend(c.db, category, cutoff), cap);
    case Clear(_) => FlipWithin(c.db, ActiveLegacy(c.db), "released", cap);
    case Reopen =>
  }

  /** Budget safety over runs: a total that starts within the cap stays within it in every reachable
      state, the visible one and the durable one, whatever fails on the way. */
  lemma {:induction false} BudgetNeverOvershoots(c: Conn, acts: seq<Act>, cap: Cap)
    requires SafeConn(c, cap)
    requires forall i :: 0 <= i < |acts| ==> SafeAct(Run(c, acts[..i]), acts[i], cap)
    ensures Total(Run(c, acts).db, cap.since) <= cap.limit
    ensures Total(Durable(Run(c, acts)), cap.since) <= cap.limit
  {
    RunStaysSafe(c, acts, cap);
  }

  lemma {:induction false} RunStaysSafe(c: Conn, acts: seq<Act>, cap: Cap)
    requires SafeConn(c, cap)
    requires forall i :: 0 <= i < |acts| ==> SafeAct(Run(c, acts[..i]), acts[i], cap)
    ensures SafeConn(Run(c, acts), cap)
  {
    hide SafeConn, SafeAct, Step;
    if acts != [] {
      var n := |acts| - 1;
      var earlier := acts[..n];
      forall i | 0 <= i < n ensures SafeAct(Run(c, earlier[..i]), earlier[i], cap) {
        assert earlier[..i] == acts[..i] && earlier[i] == acts[i];
      }
      RunStaysSafe(c, earlier, cap);
      StepStaysSafe(Run(c, earlier), acts[n], cap);
    }
  }

  // ----- lifecycle ------------------------------------------------------------------------------------------

  /** How the durable tables may change: an active row stays active or becomes spent or released, a
      terminal row never changes again, and no event disappears. */
  ghost predicate Advances(t: Tables, t': Tables) {
    && (forall k :: k in t.spend ==>
          && k in t'.spend
          && (t.spend[k].status == "active" ==> t'.spend[k].status in {"active", "spent", "released"})
          && (IsTerminal(t.spend[k].status) ==> t'.spend[k] == t.spend[k]))
    && (forall k :: k in t.legacy ==>
          && k in t'.legacy
          && t'.legacy[k].sats == t.legacy[k].sats
          && (t.legacy[k].status == "active" ==> t'.legacy[k].status in {"active", "spent", "released"})
          && (t.legacy[k].status != "active" ==> t'.legacy[k] == t.legacy[k]))
    && t.events.Keys <= t'.events.Keys
  }

  lemma ReleaseAdvances(t: Tables, ids: set<string>)
    ensures Advances(t, ReleaseSpend(t, ids))
  {
  }

  lemma FlipAdvances(t: Tables, ids: set<string>, status: string)
    requires status == "released" || status == "spent"
    ensures Advances(t, FlipLegacy(t, ids, status))
  {
  }

  lemma ReserveAdvances(c: Conn, q: ReserveRequest, now: int, failAt: nat)
    ensures Advances(Durable(c), Durable(ReserveSpec(c, q, now, failAt).0))
  {
    hide Trim, Category, SanitizeAmount, Total;
  }

  lemma AdvancesTwice(t: Tables, t': Tables, t'': Tables)
    requires Advances(t, t') && Advances(t', t'')
    ensures Advances(t, t'')
  {
  }

  lemma AdvancesItself(t: Tables)
    ensures Advances(t, t)
  {
  }

  lemma StepAdvances(c: Conn, a: Act)
    ensures Advances(Durable(c), Durable(Step(c, a)))
  {
    hide Trim, Category, SanitizeAmount, SettleSpec, ReserveSpec, Advances, ReleaseSpend, FlipLegacy, StaleLegacy, StaleRebalance;
    AdvancesItself(Durable(c));
    match a
    case Reserve(q, now, failAt) => ReserveAdvances(c, q, now, failAt);
    case Settle(_, _, _, _, _, _, _) => SettleAdvances(c, a);
    case MarkBudget(_, _, _, _) => MarkBudgetAdvances(c, a);
    case Release(id, _) => ReleaseAdvances(c.db, {id});
    case ReleaseBudget(id, _) => ReleaseAdvances(c.db, {id}); FlipAdvances(c.db, {id}, "released");
    case Cleanup(cutoff, pending, _) =>
      if pending.Some? {
        var legacy := FlipLegacy(c.db, StaleLegacy(c.db, cutoff, pending.value), "released");
        var ids := StaleRebalance(c.db, cutoff, pending.value);
        FlipAdvances(c.db, StaleLegacy(c.db, cutoff, pending.value), "released");
        ReleaseAdvances(legacy, ids);
        AdvancesTwice(c.db, legacy, ReleaseSpend(legacy, ids));
      }
    case SpendCleanup(cutoff, category, _) => ReleaseAdvances(c.db, StaleSpend(c.db, category, cutoff));
    case Clear(_) => FlipAdvances(c.db, ActiveLegacy(c.db), "released");
    case Reopen =>
    case _ => OutsideAdvances(c, a);
  }

  lemma OutsideAdvances(c: Conn, a: Act)
    requires a.OutsideEvent? || a.OutsideCost?
    ensures Advances(Durable(c), Durable(Step(c, a)))
  {
    hide Trim, Category, SanitizeAmount;
  }

  lemma MarkBudgetAdvances(c: Conn, a: Act)
    requires a.MarkBudget?
    ensures Advances(Durable(c), Durable(Step(c, a)))
  {
    hide Trim, Category, SanitizeAmount, Advances, FlipLegacy;
    var settle := Settle(a.id, Some(a.spent), None, false, 0, [], a.failAt);
    SettleAdvances(c, settle);
    FlipAdvances(Step(c, settle).db, {a.id}, "spent");
    if c.open.None? && Step(c, settle).open.None? {
      AdvancesTwice(c.db, Step(c, settle).db, FlipLegacy(Step(c, settle).db, {a.id}, "spent"));
    }
  }

  lemma SettleAdvances(c: Conn, a: Act)
    requires a.Settle?
    ensures Advances(Durable(c), Durable(Step(c, a)))
  {
    hide Trim, Category, SanitizeAmount;
  }

  /** Durable rows only move forward, on every run, with faults anywhere and outside writers too. */
  lemma {:induction false} RunAdvances(c: Conn, acts: seq<Act>, i: nat)
    requires i <= |acts|
    ensures Advances(Durable(Run(c, acts[..i])), Durable(Run(c, acts)))
  {
    if i == |acts| {
      assert acts[..i] == acts;
    } else {
      var n := |acts| - 1;
      RunAdvances(c, acts[..n], i);
      assert acts[..n][..i] == acts[..i];
      StepAdvances(Run(c, acts[..n]), acts[n]);
    }
  }

  /** Act `a` flipped the unified row `rid` to spent and answered so. */
  ghost predicate SettlesSpend(c: Conn, a: Act, rid: string) {
    match a
    case Settle(id, actual, source, record, now, writes, failAt) =>
      Trim(id) == rid && SettleSpec(c, id, actual, source, record, now, writes, failAt).1 == Ok(true)
    case MarkBudget(id, spent, failAt, _) =>
      Trim(id) == rid && SettleSpec(c, id, Some(spent), None, false, 0, [], failAt).1 == Ok(true)
    case _ => false
  }

  /** Act `a` flipped the legacy row `rid` to spent and answered so: the other way mark_budget_spent says yes. */
  ghost predicate SettlesLegacy(c: Conn, a: Act, rid: string) {
    && a.MarkBudget? && a.id == rid && !SettlesSpend(c, a, Trim(rid))
    && MarkBudgetAnswer(c, rid, a.spent, a.failAt, a.legacyFails) == Ok(true)
  }

  /** Act `a` answered settled for a row that `id` stands for: the unified one under the trimmed id, or the
      legacy one under the id as it is written. */
  ghost predicate Settles(c: Conn, a: Act, id: string) {
    SettlesSpend(c, a, Trim(id)) || SettlesLegacy(c, a, id)
  }

  lemma SettlesFlips(c: Conn, a: Act, rid: string)
    requires SettlesSpend(c, a, rid)
    ensures var t, t' := Durable(c), Durable(Step(c, a));
            && rid in t.spend && t.spend[rid].status == "active"
            && rid in t'.spend && t'.spend[rid].status == "spent"
            && (a.Settle? && a.record ==> SettlementId(rid) in t'.events)
  {
    hide Trim, Category, SanitizeAmount, Total;
    if a.Settle? && a.record {
      SettlementIdIsTrimmed(rid);
    }
  }

  /** No unified reservation is settled twice, by either settle path. */
  lemma {:induction false} SettledAtMostOnce(c: Conn, acts: seq<Act>, i: nat, j: nat, rid: string)
    requires i < j < |acts|
    requires SettlesSpend(Run(c, acts[..i]), acts[i], rid)
    ensures !SettlesSpend(Run(c, acts[..j]), acts[j], rid)
  {
    hide *;
    SettlesFlips(Run(c, acts[..i]), acts[i], rid);
    RunPrefix(c, acts, i);
    RunAdvances(c, acts[..j], i + 1);
    assert acts[..j][..i + 1] == acts[..i + 1];
    SpentStays(Durable(Run(c, acts[..i + 1])), Durable(Run(c, acts[..j])), rid);
    if SettlesSpend(Run(c, acts[..j]), acts[j], rid) {
      SettlesFlips(Run(c, acts[..j]), acts[j], rid);
    }
  }

  // ----- settled in both tables ---------------------------------------------------------------------------

  /** The legacy row is spent in the tables this connection shows and in those that would survive it. */
  ghost predicate LegacySpent(c: Conn, rid: string) {
    && rid in c.db.legacy && c.db.legacy[rid].status == "spent"
    && (c.open.Some? ==> rid in c.open.value.legacy && c.open.value.legacy[rid].status == "spent")
  }

  lemma LegacySettleFlips(c: Conn, a: Act, rid: string)
    requires SettlesLegacy(c, a, rid)
    ensures rid in ActiveLegacy(c.db)
    ensures Step(c, a) == c.(db := FlipLegacy(c.db, {rid}, "spent"))
    ensures c.open.None? ==> LegacySpent(Step(c, a), rid)
    ensures Trim(rid) != "" ==> c.open.None?
  {
    hide Trim, SanitizeAmount, Category;
  }

  lemma StepKeepsLegacySpent(c: Conn, a: Act, rid: string)
    requires LegacySpent(c, rid)
    ensures LegacySpent(Step(c, a), rid)
  {
    hide Trim, SanitizeAmount, Category, Total;
  }

  lemma {:induction false} RunKeepsLegacySpent(c: Conn, acts: seq<Act>, i: nat, rid: string)
    requires i <= |acts| && LegacySpent(Run(c, acts[..i]), rid)
    ensures LegacySpent(Run(c, acts), rid)
  {
    hide Step, LegacySpent;
    if i == |acts| {
      assert acts[..i] == acts;
    } else {
      var n := |acts| - 1;
      assert acts[..n][..i] == acts[..i];
      RunKeepsLegacySpent(c, acts[..n], i, rid);
      StepKeepsLegacySpent(Run(c, acts[..n]), acts[n], rid);
    }
  }

  /** No legacy row is settled twice, except one with a blank id inside a transaction that is then lost. */
  lemma {:induction false} LegacySettledAtMostOnce(c: Conn, acts: seq<Act>, i: nat, j: nat, rid: string)
    requires i < j < |acts|
    requires SettlesLegacy(Run(c, acts[..i]), acts[i], rid) && SettlesLegacy(Run(c, acts[..j]), acts[j], rid)
    ensures Run(c, acts[..i]).open.Some? && Trim(rid) == ""
  {
    hide Run, Step, SettlesLegacy, Trim, FlipLegacy;
    LegacySettleFlips(Run(c, acts[..i]), acts[i], rid);
    LegacySettleFlips(Run(c, acts[..j]), acts[j], rid);
    if Run(c, acts[..i]).open.None? {
      RunPrefix(c, acts, i);
      assert acts[..j][..i + 1] == acts[..i + 1];
      RunKeepsLegacySpent(c, acts[..j], i + 1, rid);
    }
  }

  /** And there it does happen: what the lost transaction settled is settled by the same call again. */
  lemma LostLegacySettleRepeats(c: Conn, a: Act, rid: string)
    requires SettlesLegacy(c, a, rid) && c.open.Some? && rid in ActiveLegacy(c.open.value)
    ensures SettlesLegacy(Step(Step(c, a), Reopen), a, rid)
  {
    hide Trim, SettleSpec, MarkBudgetAnswer, SettlesSpend, AfterMarkBudget, FlipLegacy, ActiveLegacy;
    LegacySettleFlips(c, a, rid);
    BlankSettlesLegacyOnly(c, a, rid);
    BlankSettlesLegacyOnly(Reopened(Step(c, a)), a, rid);
  }

  lemma BlankSettlesLegacyOnly(c: Conn, a: Act, rid: string)
    requires Trim(rid) == "" && a.MarkBudget? && a.id == rid
    ensures SettlesLegacy(c, a, rid) <==> !a.legacyFails && rid in ActiveLegacy(c.db)
  {
    hide Trim, SanitizeAmount, Category;
  }

  ghost predicate SpendAt(c: Conn, acts: seq<Act>, i: nat, id: string)
    requires i < |acts|
  {
    SettlesSpend(Run(c, acts[..i]), acts[i], Trim(id))
  }

  ghost predicate LegacyAt(c: Conn, acts: seq<Act>, i: nat, id: string)
    requires i < |acts|
  {
    SettlesLegacy(Run(c, acts[..i]), acts[i], id)
  }

  ghost predicate SettlesAt(c: Conn, acts: seq<Act>, i: nat, id: string)
    requires i < |acts|
  {
    Settles(Run(c, acts[..i]), acts[i], id)
  }

  /**
    Over any run an id, as its caller writes it, is answered settled twice exactly when it was settled once in
    each table, in whichever order. With no legacy row of that id, it is therefore answered settled at most once.
  */
  lemma {:induction false} SettledTwiceExactly(c: Conn, acts: seq<Act>, id: string)
    requires Trim(id) != ""
    ensures (exists i: nat, j: nat :: i < j < |acts| && SettlesAt(c, acts, i, id) && SettlesAt(c, acts, j, id))
            <==> (exists i: nat :: i < |acts| && SpendAt(c, acts, i, id)) && (exists j: nat :: j < |acts| && LegacyAt(c, acts, j, id))
  {
    hide Run, SettlesSpend, Trim, SettlesLegacy;
    if i: nat, j: nat :| i < j < |acts| && SettlesAt(c, acts, i, id) && SettlesAt(c, acts, j, id) {
      if SpendAt(c, acts, i, id) { SettledAtMostOnce(c, acts, i, j, Trim(id)); }
      if LegacyAt(c, acts, i, id) && LegacyAt(c, acts, j, id) { LegacySettledAtMostOnce(c, acts, i, j, id); }
      assert SpendAt(c, acts, i, id) || SpendAt(c, acts, j, id);
      assert LegacyAt(c, acts, i, id) || LegacyAt(c, acts, j, id);
    }
    if i: nat, j: nat :| i < |acts| && j < |acts| && SpendAt(c, acts, i, id) && LegacyAt(c, acts, j, id) {
      NotBothAtOnce(Run(c, acts[..i]), acts[i], id);
      assert SettlesAt(c, acts, i, id) && SettlesAt(c, acts, j, id);
      assert i < j || j < i;
    }
  }

  lemma NotBothAtOnce(c: Conn, a: Act, id: string)
    ensures !(SettlesSpend(c, a, Trim(id)) && SettlesLegacy(c, a, id))
  {
    hide Trim, SettlesSpend, MarkBudgetAnswer;
  }

  /**
    What the caller can check before asking again: after the unified row was settled, mark_budget_spent answers
    settled once more exactly when a legacy row of that id is still active; after the legacy row was, exactly
    when a unified one is.
  */
  lemma {:induction false} SettledAgainExactly(c: Conn, acts: seq<Act>, i: nat, id: string, spent: int, failAt: nat)
    requires Trim(id) != "" && i < |acts| && SettlesAt(c, acts, i, id)
    requires Run(c, acts).open.None? && failAt >= 4
    ensures var now := Run(c, acts);
            var again := MarkBudgetAnswer(now, id, spent, failAt, false) == Ok(true);
            && (SpendAt(c, acts, i, id) ==> (again <==> id in ActiveLegacy(now.db)))
            && (LegacyAt(c, acts, i, id) ==> (again <==> Trim(id) in ActiveSpend(now.db)))
  {
    hide Run, SettlesSpend, SettlesLegacy, Step, Advances, Trim, FlipLegacy, SanitizeAmount, Category;
    var now := Run(c, acts);
    RunPrefix(c, acts, i);
    if SpendAt(c, acts, i, id) {
      SettlesFlips(Run(c, acts[..i]), acts[i], Trim(id));
      RunAdvances(c, acts, i + 1);
      SpentStays(Durable(Run(c, acts[..i + 1])), Durable(now), Trim(id));
    }
    if LegacyAt(c, acts, i, id) {
      LegacySettleFlips(Run(c, acts[..i]), acts[i], id);
      RunKeepsLegacySpent(c, acts, i + 1, id);
    }
  }

  /** The input: an id the legacy table still holds, reserved again and then marked spent twice. */
  lemma OneIdSettledTwice(q: ReserveRequest, now: int)
    requires WellFormed(q) && q.meta.Ok? && q.budget.None? && Trim(q.reservationId) == "7"
    ensures var c := Conn(Tables(map[], map["7" := Legacy(5, 0, "1x1x0", "active")], map[], []), None);
            var c1 := Step(c, Reserve(q, now, 9));
            var mark := MarkBudget("7", 5, 9, false);
            Settles(c1, mark, "7") && Settles(Step(c1, mark), mark, "7")
  {
    hide SanitizeAmount, Category, Total;
    assert "7"[..0] == "" && "7"[1..] == "";
    assert Trim("7") == "7";
  }

  lemma SpentStays(t: Tables, t': Tables, rid: string)
    requires Advances(t, t') && rid in t.spend && t.spend[rid].status == "spent"
    ensures rid in t'.spend && t'.spend[rid].status == "spent"
  {
  }

  lemma {:induction false} RunPrefix(c: Conn, acts: seq<Act>, i: nat)
    requires i < |acts|
    ensures Run(c, acts[..i + 1]) == Step(Run(c, acts[..i]), acts[i])
  {
    assert acts[..i + 1][..i] == acts[..i];
  }

  /** Every settlement that asked for an event left that event in the durable tables for good. */
  lemma {:induction false} SettlementEventStays(c: Conn, acts: seq<Act>, i: nat, rid: string)
    requires i < |acts| && acts[i].Settle? && acts[i].record
    requires SettlesSpend(Run(c, acts[..i]), acts[i], rid)
    ensures SettlementId(rid) in Durable(Run(c, acts)).events
  {
    SettlesFlips(Run(c, acts[..i]), acts[i], rid);
    RunPrefix(c, acts, i);
    RunAdvances(c, acts, i + 1);
  }

  /** A settlement whose event is rejected or cannot be written leaves the hold as it was. */
  lemma LostEventKeepsHold(c: Conn, id: string, actual: Option<int>, source: Option<string>, now: int,
                           writes: seq<Write>, failAt: nat)
    requires Trim(id) in c.db.spend && c.db.spend[Trim(id)].status == "active"
    requires var e := Settlement(c.db.spend[Trim(id)], Trim(id), actual, source, now);
             EventRejected(SettlementId(Trim(id)), e) || !Persists(writes, 0)
    ensures var (c', r) := SettleSpec(c, id, actual, source, true, now, writes, failAt);
            c' == c && r != Ok(true)
  {
    hide Trim, Category, SanitizeAmount, Persists, EventRejected, Recorded, Settlement;
  }

  /** The blind sweep releases old active holds of every category but the committed on-chain ones. */
  lemma BlindSweepSparesOnChain(c: Conn, cutoff: int, failAt: nat, k: string)
    requires k in c.db.spend && failAt > 0
    ensures var row, row' := c.db.spend[k], AfterSpendCleanup(c, cutoff, None, failAt).db.spend[k];
            row'.status != row.status <==> row.status == "active" && row.at < cutoff && row.category !in ONCHAIN
  {
  }

  /** Acts that name no other fate for hold `k` than the automatic ones: every sweep and clear, settlements of it
      whose event is lost, and whatever is about other ids. */
  ghost predicate LeavesToSweeps(c: Conn, a: Act, k: string) {
    match a
    case Reserve(q, _, _) => Trim(q.reservationId) != k
    case Settle(id, actual, source, record, now, writes, _) =>
      Trim(id) == k && k in c.db.spend ==>
        record && var e := Settlement(c.db.spend[k], k, actual, source, now);
                  EventRejected(SettlementId(k), e) || !Persists(writes, 0)
    case MarkBudget(id, _, _, _) => Trim(id) != k
    case Release(id, _) => id != k
    case ReleaseBudget(id, _) => id != k
    case SpendCleanup(_, category, _) => category.None?
    case Reopen => false
    case _ => true
  }

  lemma StepLeavesOnChainHold(c: Conn, a: Act, k: string)
    requires k in c.db.spend && c.db.spend[k].status == "active" && c.db.spend[k].category in ONCHAIN
    requires LeavesToSweeps(c, a, k)
    ensures k in Step(c, a).db.spend && Step(c, a).db.spend[k] == c.db.spend[k]
  {
    hide Trim, Category, SanitizeAmount, Total;
    match a
    case Settle(id, actual, source, record, now, writes, failAt) =>
      if Trim(id) == k { LostEventKeepsHold(c, id, actual, source, now, writes, failAt); }
    case SpendCleanup(cutoff, _, failAt) =>
      if failAt > 0 { BlindSweepSparesOnChain(c, cutoff, failAt, k); }
    case _ =>
  }

  /** An on-chain hold outlives every run of sweeps, clears and lost settlements, row and amount unchanged: only
      a call that names it, or its category, can end it. */
  lemma {:induction false} OnChainHoldOutlivesSweeps(c: Conn, acts: seq<Act>, k: string)
    requires k in c.db.spend && c.db.spend[k].status == "active" && c.db.spend[k].category in ONCHAIN
    requires forall i :: 0 <= i < |acts| ==> LeavesToSweeps(Run(c, acts[..i]), acts[i], k)
    ensures k in Run(c, acts).db.spend && Run(c, acts).db.spend[k] == c.db.spend[k]
  {
    hide LeavesToSweeps, Step;
    if acts != [] {
      var n := |acts| - 1;
      forall i | 0 <= i < n ensures LeavesToSweeps(Run(c, acts[..n][..i]), acts[..n][i], k) {
        assert acts[..n][..i] == acts[..i];
      }
      OnChainHoldOutlivesSweeps(c, acts[..n], k);
      StepLeavesOnChainHold(Run(c, acts[..n]), acts[n], k);
    }
  }

  // ----- a COMMIT that fails ---------------------------------------------------------------------------------

  /** A grant whose COMMIT, and nothing before it, was refused. */
  ghost predicate GrantLostAtCommit(c: Conn, q: ReserveRequest, now: int, failAt: nat) {
    && WellFormed(q) && q.meta.Ok? && c.open.None?
    && DecisionOn(c.db, q, now).granted && failAt == DecisionOn(c.db, q, now).queries + 2
  }

  /**
    What an error answer of reserve_spend leaves. The durable tables never change. The visible ones change
    exactly when a grant's COMMIT was refused, and then show the reservation. A transaction is left open
    exactly when a COMMIT was refused, of a grant or of a refusal.
  */
  lemma ReserveErrorIsAtomicUnlessCommitFails(c: Conn, q: ReserveRequest, now: int, failAt: nat)
    requires ReserveSpec(c, q, now, failAt).1.Err?
    ensures var c' := ReserveSpec(c, q, now, failAt).0;
            && Durable(c') == Durable(c)
            && c'.db == (if GrantLostAtCommit(c, q, now, failAt) then Reserved(c.db, q, q.meta.value, now) else c.db)
            && (c'.open == c.open <==>
                  || q.meta.Err? || c.open.Some?
                  || failAt != DecisionOn(c.db, q, now).queries + (if DecisionOn(c.db, q, now).granted then 2 else 1))
  {
  }

  /** So an error means that no active hold appeared, exactly when it was not a grant's COMMIT that failed. */
  lemma ErrorLeavesNoNewHold(c: Conn, q: ReserveRequest, now: int, failAt: nat)
    requires ReserveSpec(c, q, now, failAt).1.Err?
    ensures var c', rid := ReserveSpec(c, q, now, failAt).0, Trim(q.reservationId);
            && (GrantLostAtCommit(c, q, now, failAt) ==>
                  rid in c'.db.spend && c'.db.spend[rid].status == "active"
                  && c'.db.spend[rid].sats == SanitizeAmount(q.amountSats))
            && (!GrantLostAtCommit(c, q, now, failAt) ==> c'.db.spend == c.db.spend)
  {
    hide Trim, Category, SanitizeAmount, Total;
    ReserveErrorIsAtomicUnlessCommitFails(c, q, now, failAt);
  }

  /** From then on, until the connection is reopened, nothing any call does becomes durable. */
  lemma {:induction false} OpenTransactionSticks(c: Conn, acts: seq<Act>)
    requires c.open.Some? && forall i :: 0 <= i < |acts| ==> !acts[i].Reopen?
    ensures Run(c, acts).open == c.open
    ensures Durable(Run(c, acts + [Reopen])) == c.open.value
  {
    hide Trim, Category, SanitizeAmount;
    var all := acts + [Reopen];
    assert all[..|acts|] == acts;
    if acts != [] {
      OpenTransactionSticks(c, acts[..|acts| - 1]);
    }
  }

  /** Meanwhile every call that opens a transaction is refused and leaves what the connection shows. */
  lemma OpenTransactionRefuses(c: Conn, q: ReserveRequest, id: string, actual: Option<int>, source: Option<string>,
                               record: bool, now: int, writes: seq<Write>, failAt: nat)
    requires c.open.Some?
    ensures WellFormed(q) ==> ReserveSpec(c, q, now, failAt) == (c, Err)
    ensures Trim(id) != "" ==> SettleSpec(c, id, actual, source, record, now, writes, failAt) == (c, Err)
    ensures AfterClear(c, failAt) == c
  {
    hide Trim, Category, SanitizeAmount, Total;
  }

  /** Any grant whose COMMIT fails: the caller is told of an error, yet the connection goes on
      showing, and counting, an active hold that the file does not have. */
  lemma FailedCommitShowsHold(c: Conn, q: ReserveRequest, now: int)
    requires WellFormed(q) && q.meta.Ok? && c.open.None? && DecisionOn(c.db, q, now).granted
    ensures var (c', r) := ReserveSpec(c, q, now, DecisionOn(c.db, q, now).queries + 2);
            var rid := Trim(q.reservationId);
            && r.Err?
            && rid in c'.db.spend && c'.db.spend[rid].status == "active"
            && c'.db.spend[rid].sats == SanitizeAmount(q.amountSats)
            && Durable(c') == c.db
  {
    hide Trim, Category, SanitizeAmount, Total;
  }
}
