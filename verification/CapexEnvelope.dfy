/**
  What the allocator promises: every share is non-negative and together they fit the envelope, scaling
  keeps their order and wastes less than one msat a share, and a degraded read allocates nothing.
*/
module CapexEnvelope {
  import opened Capex
  import opened MapSums
  import opened Outcomes
  import opened Numbers

  /** What compute_allocations hands out. */
  ghost function Allocated(e: Evidence, cfg: Config): Shares {
    TotalNonNegative(Asked(e, cfg));
    Enforced(Asked(e, cfg), Envelope(cfg, Total(Asked(e, cfg))))
  }

  // ----- flooring a whole map ------------------------------------------------------------------------------------

  function Floored(m: map<string, int>, scale: real): map<string, int>
    requires scale >= 0.0 && forall k :: k in m ==> m[k] >= 0
  {
    map k | k in m :: Scaled(m[k], scale)
  }

  lemma Distribute(a: int, b: int, sum: int, c: real)
    requires sum == a + b
    ensures Exact(sum, c) == Exact(a, c) + Exact(b, c)
  {
  }

  /** Flooring each entry loses at most one per entry, and never gains. */
  lemma {:induction false} FlooredSum(m: map<string, int>, scale: real)
    requires scale >= 0.0 && forall k :: k in m ==> m[k] >= 0
    ensures var exact := Exact(Sum(m), scale);
            Sum(Floored(m, scale)) as real <= exact <= (Sum(Floored(m, scale)) + |m|) as real
    decreases |m|
  {
    hide Scaled, Exact, Sum;
    if m == map[] {
      EmptySums(scale);
    } else {
      var k :| k in m;
      var rest := m - {k};
      SumRemove(m, k);
      SumRemove(Floored(m, scale), k);
      assert Floored(m, scale) - {k} == Floored(rest, scale);
      FlooredSum(rest, scale);
      Distribute(m[k], Sum(rest), Sum(m), scale);
      assert rest.Keys == m.Keys - {k};
      assert |m| == |m.Keys| && |rest| == |rest.Keys|;
      assert Floored(m, scale)[k] == Scaled(m[k], scale);
    }
  }

  lemma EmptySums(scale: real)
    requires scale >= 0.0
    ensures Sum(map[]) == 0 && Floored(map[], scale) == map[] && Exact(0, scale) == 0.0
  {
  }

  lemma RescaledIsFloored(s: Shares, scale: real)
    requires NonNegative(s) && scale >= 0.0
    ensures Msats(Rescaled(s.channels, scale)) == Floored(Msats(s.channels), scale)
  {
    hide Scaled;
  }

  lemma ScaledIsMonotone(a: int, b: int, scale: real)
    requires 0 <= a <= b && scale >= 0.0
    ensures Scaled(a, scale) <= Scaled(b, scale)
  {
    ProductNonNegative((b - a) as real, scale);
    Distribute(a, b - a, b, scale);
  }

  lemma ScaledShrinks(a: int, scale: real)
    requires 0 <= a && 0.0 <= scale <= 1.0
    ensures Scaled(a, scale) <= a
  {
    ProductNonNegative(a as real, 1.0 - scale);
    assert a as real * (1.0 - scale) == a as real - a as real * scale;
  }

  lemma ScaleIsBelowOne(envelope: int, raw: int)
    requires 0 <= envelope < raw
    ensures 0.0 <= ScaleOf(envelope, raw) < 1.0
  {
    ProductOrder(1.0, ScaleOf(envelope, raw), raw as real);
  }

  // ----- the enforcement step --------------------------------------------------------------------------------------

  /** The shares fit; when they had to be scaled, less than one msat per share is left unspent. */
  lemma EnforcedFits(s: Shares, envelope: int)
    requires NonNegative(s) && envelope >= 0
    ensures var r := Enforced(s, envelope);
            && NonNegative(r) && r.channels.Keys == s.channels.Keys
            && Total(r) <= envelope
            && (Total(s) <= envelope ==> r == s)
            && (Total(s) > envelope ==> envelope - Total(r) < |s.channels| + 2)
  {
    hide Scaled, Sum, ScaleOf, Exact;
    TotalNonNegative(s);
    if Total(s) > envelope {
      var scale, m := ScaleOf(envelope, Total(s)), Msats(s.channels);
      RescaledIsFloored(s, scale);
      FlooredSum(m, scale);
      assert m.Keys == s.channels.Keys;
      assert |m| == |m.Keys| && |s.channels| == |s.channels.Keys|;
      Distribute(Sum(m) + s.exploration, s.tactical, Total(s), scale);
      Distribute(Sum(m), s.exploration, Sum(m) + s.exploration, scale);
      var parts := Sum(Floored(m, scale)) + Scaled(s.exploration, scale) + Scaled(s.tactical, scale);
      assert Total(Enforced(s, envelope)) == parts;
      assert parts as real <= envelope as real < (parts + |m| + 2) as real;
    }
  }

  /** One of the shares: a channel's, exploration or tactical. */
  datatype Share = Channel(id: string) | Exploring | Standing

  predicate Holds(s: Shares, x: Share) { x.Channel? ==> x.id in s.channels }

  function Amount(s: Shares, x: Share): int
    requires Holds(s, x)
  {
    match x
    case Channel(id) => s.channels[id].msat
    case Exploring => s.exploration
    case Standing => s.tactical
  }

  /** No share grows, and whichever of two shares of any kind was the larger still is; a channel keeps its tier. */
  lemma EnforcedKeepsOrder(s: Shares, envelope: int, j: Share, k: Share)
    requires NonNegative(s) && envelope >= 0
    requires Holds(s, j) && Holds(s, k) && Amount(s, j) <= Amount(s, k)
    ensures var r := Enforced(s, envelope);
            && Holds(r, j) && Holds(r, k)
            && Amount(r, j) <= Amount(r, k) <= Amount(s, k)
            && (k.Channel? ==> r.channels[k.id] == s.channels[k.id].(msat := Amount(r, k)))
  {
    hide Scaled, Sum, ScaleOf;
    if Total(s) > envelope && Total(s) > 0 {
      var scale := ScaleOf(envelope, Total(s));
      ScaleIsBelowOne(envelope, Total(s));
      ScaledIsMonotone(Amount(s, j), Amount(s, k), scale);
      ScaledShrinks(Amount(s, k), scale);
    }
  }

  /** Money already spent on a channel never raises its budget, and never changes its tier. */
  lemma SpendNeverRaisesBudget(id: string, p: Profile, spent: int, more: int, bleeder: Option<string>, cfg: Config,
                               fleet: Option<Fleet>)
    requires spent <= more
    ensures var a := ComputeChannelBudget(id, p, spent, bleeder, cfg, fleet);
            var b := ComputeChannelBudget(id, p, more, bleeder, cfg, fleet);
            b.msat <= a.msat && b == a.(msat := b.msat)
  {
    RawBudgetFalls(p, spent, more, cfg);
    BudgetOfRaw(id, p, spent, bleeder, cfg, fleet);
    BudgetOfRaw(id, p, more, bleeder, cfg, fleet);
    hide ComputeChannelBudget, RawBudget, Factor, Scaled;
    var x, y := RawBudget(p, spent, cfg), RawBudget(p, more, cfg);
    if x.Some? {
      ScaledIsMonotone(y.value.msat, x.value.msat, Factor(id, fleet, p));
    }
  }

  function Factor(id: string, fleet: Option<Fleet>, p: Profile): (f: real)
    ensures f >= 0.0
  {
    ProductNonNegative(RoiMultiplier(p), EfficiencyMultiplier(id, fleet, p));
    RoiMultiplier(p) * EfficiencyMultiplier(id, fleet, p)
  }

  /** Where the spend enters: nowhere for a barred channel, else through the raw budget alone. */
  lemma BudgetOfRaw(id: string, p: Profile, spent: int, bleeder: Option<string>, cfg: Config, fleet: Option<Fleet>)
    ensures var b, raw := ComputeChannelBudget(id, p, spent, bleeder, cfg, fleet), RawBudget(p, spent, cfg);
            if p.classification == "zombie" || bleeder == Some("hard") then b == BLOCKED.(priority := Defensive)
            else if (p.daysOpen < cfg.graceDays && p.contribution == 0) || raw.None? then b == BLOCKED
            else b == raw.value.(msat := Scaled(raw.value.msat, Factor(id, fleet, p)))
  {
    hide EfficiencyMultiplier, RoiMultiplier, RawBudget, Scaled;
  }

  lemma RawBudgetFalls(p: Profile, spent: int, more: int, cfg: Config)
    requires spent <= more
    ensures var x, y := RawBudget(p, spent, cfg), RawBudget(p, more, cfg);
            && (x.Some? <==> y.Some?)
            && (x.Some? ==> y.value.msat <= x.value.msat && y.value == x.value.(msat := y.value.msat))
  {
    hide Contribution30, BootstrapMsat, ProvenMsat;
    ProvenIsRemainder(p, spent, cfg);
    ProvenIsRemainder(p, more, cfg);
  }

  /** What the trailing contribution funds, before anything was spent. */
  function Reinvested(p: Profile, cfg: Config): int { Trunc(Contribution30(p) as real * cfg.reinvestmentRate) }

  lemma ProvenIsRemainder(p: Profile, spent: int, cfg: Config)
    ensures ProvenMsat(p, spent, cfg) == Max(Reinvested(p, cfg) - spent, 0)
  {
    hide Contribution30, Trunc;
  }

  /** Before the multipliers no channel gets more than its reinvested contribution or its bootstrap share. */
  lemma RawBudgetIsFunded(p: Profile, spent: int, cfg: Config)
    requires spent >= 0
    ensures var r := RawBudget(p, spent, cfg);
            var earned := Max(Reinvested(p, cfg), 0);
            var start := Max(BootstrapMsat(p, cfg), 0);
            && (r.None? <==> Contribution30(p) <= 100 * MSAT && p.forwards <= 5 && p.daysOpen < cfg.graceDays)
            && (r.Some? ==> r.value.msat + spent <= Max(spent, Max(earned, start)))
            && (r.Some? && r.value.tier == Bootstrap ==> r.value.msat + spent <= Max(spent, start))
            && (r.Some? && r.value.tier == Proven ==> r.value.msat + spent <= Max(spent, earned))
  {
    hide Reinvested, BootstrapMsat, Contribution30, ProvenMsat;
    ProvenIsRemainder(p, spent, cfg);
  }

  // ----- the whole allocation ------------------------------------------------------------------------------------------

  /** Every configured cap bounds the whole allocation; with none, the channels get what they asked for. */
  lemma CapsAreRespected(e: Evidence, cfg: Config)
    ensures var r := Allocated(e, cfg);
            && NonNegative(r)
            && (cfg.envelopeSats > 0 ==> Total(r) <= cfg.envelopeSats * MSAT)
            && (cfg.dailySats > 0 ==> Total(r) <= cfg.dailySats * 30 * MSAT)
            && (cfg.weeklySats > 0 ==> 7 * Total(r) <= cfg.weeklySats * 30 * MSAT)
            && (cfg.envelopeSats <= 0 && cfg.dailySats <= 0 && cfg.weeklySats <= 0 ==> r == Asked(e, cfg))
  {
    hide Asked, Total, Enforced, Trunc;
    var asked := Asked(e, cfg);
    TotalNonNegative(asked);
    EnforcedFits(asked, Envelope(cfg, Total(asked)));
  }

  /** A failed spend read allocates nothing at all, whatever the caps. */
  lemma DegradedAllocatesNothing(e: Evidence, cfg: Config)
    requires Degraded(e)
    ensures var r := Allocated(e, cfg);
            && r.exploration == 0 && r.tactical == 0 && Total(r) == 0
            && r.channels.Keys == e.channels.Keys && forall k :: k in r.channels ==> r.channels[k].msat == 0
  {
    hide BudgetOf, Envelope;
    var asked := Asked(e, cfg);
    AllZero(Msats(asked.channels));
    TotalNonNegative(asked);
    assert Total(asked) == 0;
  }

  lemma {:induction false} AllZero(m: map<string, int>)
    requires forall k :: k in m ==> m[k] == 0
    ensures Sum(m) == 0
    decreases |m|
  {
    if m != map[] {
      var k :| k in m;
      SumRemove(m, k);
      AllZero(m - {k});
    }
  }

  /** Budgets of the three classes a channel can have; no channel budget is operational. */
  ghost predicate ChannelClasses(bs: map<string, Budget>) {
    forall k :: k in bs ==> bs[k].priority != Operational && (bs[k].priority == Defensive ==> bs[k].msat == 0)
  }

  lemma AllocatedClasses(e: Evidence, cfg: Config)
    ensures ChannelClasses(Allocated(e, cfg).channels)
  {
    hide Exploration, Tactical, Envelope, Sum, ScaleOf;
    DefensiveBudgetsAreZero(e, cfg);
    hide BudgetOf;
    assert ChannelClasses(Asked(e, cfg).channels);
    TotalNonNegative(Asked(e, cfg));
    EnforcedClasses(Asked(e, cfg), Envelope(cfg, Total(Asked(e, cfg))));
  }

  lemma DefensiveBudgetsAreZero(e: Evidence, cfg: Config)
    ensures ChannelClasses(Budgets(e, cfg, e.channels.Keys))
  {
    hide EfficiencyMultiplier, RoiMultiplier, ProvenMsat, BootstrapMsat, Scaled, SpentMsat, Bleeder, RawBudget;
  }

  lemma EnforcedClasses(s: Shares, envelope: int)
    requires NonNegative(s) && envelope >= 0 && ChannelClasses(s.channels)
    ensures ChannelClasses(Enforced(s, envelope).channels)
  {
    hide Sum, ScaleOf, Trunc;
  }

  /**
    The four tallies are the allocation less the growth-class channel budgets, which no tally carries; the
    defensive tally is always zero, since a defensive channel is a blocked one.
  */
  lemma TalliesAddUp(e: Evidence, cfg: Config)
    ensures var r := Allocated(e, cfg);
            && Sum(OfClass(r.channels, Defensive)) == 0
            && Sum(OfClass(r.channels, Defensive)) + Sum(OfClass(r.channels, Preservation)) + r.tactical + r.exploration
               == Total(r) - Sum(OfClass(r.channels, Growth))
  {
    AllocatedClasses(e, cfg);
    var bs := Allocated(e, cfg).channels;
    hide Allocated, Sum;
    ClassesSplit(bs);
  }

  lemma ClassesSplit(bs: map<string, Budget>)
    requires ChannelClasses(bs)
    ensures Sum(OfClass(bs, Defensive)) == 0
    ensures Sum(Msats(bs)) == Sum(OfClass(bs, Preservation)) + Sum(OfClass(bs, Growth))
  {
    hide Sum;
    AllZero(OfClass(bs, Defensive));
    SumPlus(Msats(bs), OfClass(bs, Preservation), OfClass(bs, Growth));
  }
}
