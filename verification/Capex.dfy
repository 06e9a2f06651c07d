/**
  The capital allocator of crates/revops-capital/src/capex.rs. An f64 is a real; `as i64` truncates
  toward zero, which is the floor of a non-negative value. An i64 is an unbounded int.
*/
module Capex {
  import opened Outcomes
  import opened MapSums
  import opened Numbers

  const MSAT: int := 1000

  datatype Window = Window(contribution: int, fees: int)

  datatype Profile = Profile(
    classification: string, capacitySats: int, daysOpen: int, marginalRoi: real, roiReliable: bool,
    role: Option<string>, contribution: int, forwards: int, fees: int, sourced: int, window: Option<Window>)

  datatype Efficiency = Efficiency(deadCapital: bool, rpsd: real)

  datatype Fleet = Fleet(channels: map<string, Efficiency>, medianRpsd: real)

  datatype Summary = Summary(spent: map<string, int>, reserved: map<string, int>)

  datatype Evidence = Evidence(
    channels: map<string, Profile>, bleeders: map<string, string>, spentByChannel: Option<map<string, int>>,
    summary: Option<Summary>, onchainSats: int, fleet: Option<Fleet>)

  datatype Config = Config(
    reinvestmentRate: real, bootstrapBps: int, bootstrapMaxSats: int, graceDays: int, explorationRate: real,
    tacticalRate: real, envelopeSats: int, dailySats: int, weeklySats: int, minReserve: int, openCostSats: int)

  datatype Tier = Proven | Active | Bootstrap | Blocked

  datatype Priority = Defensive | Preservation | Operational | Growth

  datatype Budget = Budget(msat: int, tier: Tier, tierPpm: int, priority: Priority)

  function Trunc(x: real): (n: int)
    ensures x >= 0.0 ==> n >= 0 && n as real <= x < (n + 1) as real
  {
    if x >= 0.0 then x.Floor else -((-x).Floor)
  }

  function Get(m: map<string, int>, k: string): int { if k in m then m[k] else 0 }

  // ----- one channel --------------------------------------------------------------------------------------

  predicate HasGatewayValue(p: Profile) {
    p.role == Some("inbound_gateway") || p.sourced > 100_000
  }

  function EfficiencyMultiplier(id: string, fleet: Option<Fleet>, p: Profile): (m: real)
    ensures m == 0.0 || 0.25 <= m <= 1.5
    ensures m == 0.0 <==> fleet.Some? && id in fleet.value.channels && fleet.value.channels[id].deadCapital
                          && !HasGatewayValue(p)
    ensures fleet.Some? && id in fleet.value.channels && !fleet.value.channels[id].deadCapital && fleet.value.medianRpsd > 0.0
            ==> (m >= 1.0 <==> fleet.value.channels[id].rpsd >= fleet.value.medianRpsd)
  {
    if fleet.None? || id !in fleet.value.channels then 1.0
    else
      var e, median := fleet.value.channels[id], fleet.value.medianRpsd;
      if e.deadCapital then (if HasGatewayValue(p) then 0.25 else 0.0)
      else if median <= 0.0 then 1.0
      else
        var ratio := e.rpsd / median;
        if e.rpsd >= median then
          var bonus := (ratio - 1.0) * 0.25;
          assert ratio >= 1.0;
          1.0 + if bonus < 0.5 then bonus else 0.5
        else
          assert ratio < 1.0;
          if ratio > 0.5 then ratio else 0.5
  }

  function RoiMultiplier(p: Profile): (m: real)
    ensures 0.25 <= m <= 1.5
  {
    if !p.roiReliable then 1.0
    else if 1.0 + p.marginalRoi < 0.25 then 0.25
    else if 1.0 + p.marginalRoi > 1.5 then 1.5
    else 1.0 + p.marginalRoi
  }

  const BLOCKED := Budget(0, Blocked, 0, Growth)

  function Contribution30(p: Profile): int {
    if p.window.Some? then p.window.value.contribution else p.contribution
  }

  function ProvenMsat(p: Profile, spent: int, cfg: Config): (n: int)
    ensures n >= 0
  {
    Max(Trunc(Contribution30(p) as real * cfg.reinvestmentRate) - spent, 0)
  }

  function BootstrapMsat(p: Profile, cfg: Config): int {
    Min(Trunc((p.capacitySats * MSAT) as real * cfg.bootstrapBps as real / 10000.0), cfg.bootstrapMaxSats * MSAT)
  }

  /** Tier and raw budget before the multipliers; `None` is a channel still in its grace period. */
  function RawBudget(p: Profile, spent: int, cfg: Config): (r: Option<Budget>)
    ensures r.Some? ==> r.value.msat >= 0 && r.value.priority in {Preservation, Growth}
  {
    var proven, boot := ProvenMsat(p, spent, cfg), Max(BootstrapMsat(p, cfg) - spent, 0);
    if Contribution30(p) > 100 * MSAT then Some(Budget(proven, Proven, 2000, Preservation))
    else if p.forwards > 5 then Some(Budget(if proven > 0 then Max(proven, boot) else boot, Active, 500, Preservation))
    else if p.daysOpen >= cfg.graceDays then Some(Budget(boot, Bootstrap, 250, Growth))
    else None
  }

  function Exact(msat: int, factor: real): real { msat as real * factor }

  /** A budget times a factor, truncated. */
  function Scaled(msat: int, factor: real): (n: int)
    requires msat >= 0 && factor >= 0.0
    ensures n >= 0 && n as real <= Exact(msat, factor) < (n + 1) as real
  {
    ProductNonNegative(msat as real, factor);
    Trunc(Exact(msat, factor))
  }

  lemma ProductNonNegative(x: real, y: real)
    requires x >= 0.0 && y >= 0.0
    ensures x * y >= 0.0
  {
  }

  /** compute_channel_budget: never negative, and nothing for zombies, hard bleeders, and dead capital
      without gateway value. */
  function ComputeChannelBudget(id: string, p: Profile, spent: int, bleeder: Option<string>, cfg: Config,
                                fleet: Option<Fleet>): (b: Budget)
    ensures b.msat >= 0 && b.priority != Operational
    ensures p.classification == "zombie" || bleeder == Some("hard") ==> b.msat == 0 && b.priority == Defensive
    ensures b.tier == Blocked ==> b.msat == 0
    ensures fleet.Some? && id in fleet.value.channels && fleet.value.channels[id].deadCapital && !HasGatewayValue(p)
            ==> b.msat == 0
  {
    if p.classification == "zombie" || bleeder == Some("hard") then BLOCKED.(priority := Defensive)
    else if p.daysOpen < cfg.graceDays && p.contribution == 0 then BLOCKED
    else
      match RawBudget(p, spent, cfg)
      case None => BLOCKED
      case Some(raw) =>
        var factor := RoiMultiplier(p) * EfficiencyMultiplier(id, fleet, p);
        ProductNonNegative(RoiMultiplier(p), EfficiencyMultiplier(id, fleet, p));
        raw.(msat := Scaled(raw.msat, factor))
  }

  // ----- the fleet ----------------------------------------------------------------------------------------------

  function Fees30(p: Profile): int { if p.window.Some? then p.window.value.fees else p.fees }

  function FleetFees(channels: map<string, Profile>, ids: set<string>): map<string, int> {
    map k | k in ids && k in channels :: Fees30(channels[k])
  }

  function Bleeder(e: Evidence, id: string): Option<string> {
    if id in e.bleeders then Some(e.bleeders[id]) else None
  }

  function SpentMsat(e: Evidence, id: string): int {
    MSAT * if e.spentByChannel.Some? then Get(e.spentByChannel.value, id) else 0
  }

  function BudgetOf(e: Evidence, cfg: Config, id: string): (b: Budget)
    requires id in e.channels
    ensures b.msat >= 0 && b.priority != Operational
  {
    ComputeChannelBudget(id, e.channels[id], SpentMsat(e, id), Bleeder(e, id), cfg, e.fleet)
  }

  function Budgets(e: Evidence, cfg: Config, ids: set<string>): map<string, Budget> {
    map k | k in ids && k in e.channels :: BudgetOf(e, cfg, k)
  }

  predicate Degraded(e: Evidence) { e.spentByChannel.None? || e.summary.None? }

  function SummaryOf(e: Evidence): Summary { if e.summary.Some? then e.summary.value else Summary(map[], map[]) }

  function RemainingAfter(msat: int, s: Summary, category: string): (n: int)
    ensures n >= 0
  {
    Max(msat - (Get(s.spent, category) + Get(s.reserved, category)) * MSAT, 0)
  }

  function WalletFloor(e: Evidence, cfg: Config): int {
    var excess := Max(e.onchainSats - cfg.minReserve, 0);
    if excess <= 0 then 0 else Min(excess, Max(cfg.openCostSats, 0)) * MSAT
  }

  function Exploration(e: Evidence, cfg: Config, fees: int): (n: int)
    ensures n >= 0
  {
    if fees > 0 then
      RemainingAfter(Max(Trunc(fees as real * cfg.explorationRate), WalletFloor(e, cfg)), SummaryOf(e), "channel_open")
    else
      Max(Max(e.onchainSats - cfg.minReserve, 0) - Get(SummaryOf(e).reserved, "channel_open"), 0) * MSAT
  }

  function Tactical(e: Evidence, cfg: Config, fees: int): (n: int)
    ensures n >= 0
  {
    var deficit := Max(cfg.minReserve - e.onchainSats, 0) * MSAT;
    RemainingAfter(Max(Min(deficit, Trunc(fees as real * cfg.tacticalRate)), 0), SummaryOf(e), "boltz")
  }

  /** The global envelope; `raw` is the unscaled allocation. */
  function Envelope(cfg: Config, raw: int): (n: int)
    ensures raw >= 0 ==> n >= 0
  {
    var base := if cfg.envelopeSats > 0 then cfg.envelopeSats * MSAT else raw;
    var daily := if cfg.dailySats > 0 then Min(base, cfg.dailySats * 30 * MSAT) else base;
    if cfg.weeklySats > 0 then
      assert cfg.weeklySats as real * 1000.0 * (30.0 / 7.0) >= 0.0;
      Min(daily, Trunc(cfg.weeklySats as real * 1000.0 * (30.0 / 7.0)))
    else daily
  }

  function Msats(bs: map<string, Budget>): map<string, int> { map k | k in bs :: bs[k].msat }

  function Zeroed(bs: map<string, Budget>): map<string, Budget> { map k | k in bs :: bs[k].(msat := 0) }

  function Rescaled(bs: map<string, Budget>, scale: real): map<string, Budget>
    requires scale >= 0.0 && forall k :: k in bs ==> bs[k].msat >= 0
  {
    map k | k in bs :: bs[k].(msat := Scaled(bs[k].msat, scale))
  }

  datatype Shares = Shares(channels: map<string, Budget>, exploration: int, tactical: int)

  ghost function Total(s: Shares): int { Sum(Msats(s.channels)) + s.exploration + s.tactical }

  ghost predicate NonNegative(s: Shares) {
    s.exploration >= 0 && s.tactical >= 0 && forall k :: k in s.channels ==> s.channels[k].msat >= 0
  }

  /** Every share before the envelope; a degraded read zeroes them all. */
  ghost function Asked(e: Evidence, cfg: Config): (s: Shares)
    ensures NonNegative(s)
  {
    var fees := Sum(FleetFees(e.channels, e.channels.Keys));
    if Degraded(e) then Shares(Zeroed(Budgets(e, cfg, e.channels.Keys)), 0, 0)
    else Shares(Budgets(e, cfg, e.channels.Keys), Exploration(e, cfg, fees), Tactical(e, cfg, fees))
  }

  function ScaleOf(envelope: int, raw: int): (r: real)
    requires raw > 0 && envelope >= 0
    ensures r >= 0.0 && r * raw as real == envelope as real == Exact(raw, r)
  {
    envelope as real / raw as real
  }

  /** The shares under `envelope`, every one floored by the same factor when they exceed it. */
  ghost function Enforced(s: Shares, envelope: int): Shares
    requires NonNegative(s) && (Total(s) > envelope && Total(s) > 0 ==> envelope >= 0)
  {
    if Total(s) > envelope && Total(s) > 0 then
      var scale := ScaleOf(envelope, Total(s));
      Shares(Rescaled(s.channels, scale), Scaled(s.exploration, scale), Scaled(s.tactical, scale))
    else s
  }

  function OfClass(bs: map<string, Budget>, p: Priority): map<string, int> {
    map k | k in bs :: if bs[k].priority == p then bs[k].msat else 0
  }

  datatype Allocations = Allocations(
    priority: Priority, envelope: int, shares: Shares, defensive: int, preservation: int, operational: int,
    growth: int, fees: int, degraded: bool)

  predicate HardBleeder(e: Evidence, id: string) { Bleeder(e, id) == Some("hard") }

  predicate DepletedEarner(p: Profile) {
    p.contribution > 100 * MSAT && (p.classification == "underwater" || p.classification == "stagnant_candidate")
  }

  function Capacities(channels: map<string, Profile>, ids: set<string>): map<string, int> {
    map k | k in ids && k in channels :: channels[k].capacitySats
  }

  ghost function HardBleeders(e: Evidence, ids: set<string>): set<string> { set k | k in ids && HardBleeder(e, k) }

  /** More than one hard bleeder, or one holding over a tenth of the capacity. */
  ghost predicate ManyHardBleeders(e: Evidence) {
    var all, hard := e.channels.Keys, HardBleeders(e, e.channels.Keys);
    |hard| > 1 || (Sum(Capacities(e.channels, all)) > 0
                   && 10 * Sum(Capacities(e.channels, hard)) > Sum(Capacities(e.channels, all)))
  }

  ghost function PriorityClass(e: Evidence, cfg: Config): Priority {
    if ManyHardBleeders(e) then Defensive
    else if exists k :: k in e.channels && DepletedEarner(e.channels[k]) then Preservation
    else if Max(cfg.minReserve - e.onchainSats, 0) > 0 then Operational
    else Growth
  }

  lemma TotalNonNegative(s: Shares)
    requires NonNegative(s)
    ensures Total(s) >= 0
  {
    SumNonNegative(Msats(s.channels));
  }

  lemma TenthOf(part: int, whole: int)
    requires whole > 0
    ensures part as real / whole as real > 0.1 <==> 10 * part > whole
  {
    var q := part as real / whole as real;
    assert q * whole as real == part as real;
    ProductOrder(q, 0.1, whole as real);
    assert 0.1 * whole as real == whole as real / 10.0;
  }

  lemma ProductOrder(x: real, y: real, c: real)
    requires c > 0.0
    ensures x > y <==> x * c > y * c
  {
    assert (x - y) * c == x * c - y * c;
  }

  /** compute_allocations: gather over the channels, enforce the envelope, tally by priority. */
  method ComputeAllocations(e: Evidence, cfg: Config) returns (a: Allocations)
    ensures Total(Asked(e, cfg)) >= 0
    ensures a.envelope == Envelope(cfg, Total(Asked(e, cfg)))
    ensures a.shares == Enforced(Asked(e, cfg), a.envelope)
    ensures a.priority == PriorityClass(e, cfg) && a.degraded == Degraded(e)
    ensures a.fees == Sum(FleetFees(e.channels, e.channels.Keys))
    ensures a.defensive == Sum(OfClass(a.shares.channels, Defensive))
    ensures a.preservation == Sum(OfClass(a.shares.channels, Preservation))
    ensures a.operational == a.shares.tactical && a.growth == a.shares.exploration
  {
    hide BudgetOf, Exploration, Tactical, Envelope, Scaled, Sum, HardBleeders, Capacities, FleetFees, OfClass, Enforced, DepletedEarner;
    var budgets, fees, hardCount, hardCapacity, capacity, depleted := Gather(e, cfg);
    if capacity > 0 { TenthOf(hardCapacity, capacity); }
    var hard := hardCount > 1 || (capacity > 0 && hardCapacity as real / capacity as real > 0.1);
    var deficit := Max(cfg.minReserve - e.onchainSats, 0);
    var priority := if hard then Defensive else if depleted then Preservation else if deficit > 0 then Operational else Growth;
    var exploration, tactical := Exploration(e, cfg, fees), Tactical(e, cfg, fees);
    if Degraded(e) {
      exploration, tactical := 0, 0;
      budgets := Zeroed(budgets);
    }
    TotalNonNegative(Asked(e, cfg));
    var channelTotal := SumOf(Msats(budgets));
    var raw := channelTotal + exploration + tactical;
    var envelope := Envelope(cfg, raw);
    var shares := EnforceEnvelope(Shares(budgets, exploration, tactical), raw, envelope);
    var defensive := SumOf(OfClass(shares.channels, Defensive));
    var preservation := SumOf(OfClass(shares.channels, Preservation));
    a := Allocations(priority, envelope, shares, defensive, preservation, shares.tactical, shares.exploration, fees,
                     Degraded(e));
  }

  /** The scaling step: every share is floored by the one factor when they exceed the envelope. */
  method EnforceEnvelope(s: Shares, raw: int, envelope: int) returns (r: Shares)
    requires NonNegative(s) && raw == Total(s) && envelope >= 0
    ensures r == Enforced(s, envelope)
  {
    hide Sum, Scaled;
    r := s;
    if raw > envelope && raw > 0 {
      var scale := ScaleOf(envelope, raw);
      r := r.(exploration := Scaled(r.exploration, scale), tactical := Scaled(r.tactical, scale));
      r := r.(channels := Rescaled(r.channels, scale));
    }
  }

  /** The loop over the channels with its accumulators. */
  method Gather(e: Evidence, cfg: Config)
    returns (budgets: map<string, Budget>, fees: int, hardCount: nat, hardCapacity: int, capacity: int, depleted: bool)
    ensures budgets == Budgets(e, cfg, e.channels.Keys) && fees == Sum(FleetFees(e.channels, e.channels.Keys))
    ensures hardCount == |HardBleeders(e, e.channels.Keys)|
    ensures hardCapacity == Sum(Capacities(e.channels, HardBleeders(e, e.channels.Keys)))
    ensures capacity == Sum(Capacities(e.channels, e.channels.Keys))
    ensures depleted <==> exists k :: k in e.channels && DepletedEarner(e.channels[k])
  {
    hide *;
    budgets, fees, hardCount, hardCapacity, capacity, depleted := map[], 0, 0, 0, 0, false;
    NothingYet(e, cfg);
    var left := e.channels.Keys;
    ghost var seen: set<string> := {};
    while left != {}
      invariant left <= e.channels.Keys && seen == e.channels.Keys - left
      invariant budgets == Budgets(e, cfg, seen) && Sums(e, seen, fees, capacity)
      invariant Bleeders(e, seen, hardCount, hardCapacity)
      invariant depleted <==> exists k :: k in seen && DepletedEarner(e.channels[k])
      decreases |left|
    {
      var id :| id in left;
      var p := e.channels[id];
      SumsGrow(e, seen, id, fees, capacity);
      BleedersGrow(e, seen, id, hardCount, hardCapacity);
      BudgetsGrow(e, cfg, seen, id);
      capacity := capacity + p.capacitySats;
      fees := fees + Fees30(p);
      if HardBleeder(e, id) {
        hardCount := hardCount + 1;
        hardCapacity := hardCapacity + p.capacitySats;
      }
      if DepletedEarner(p) { depleted := true; }
      budgets := budgets[id := BudgetOf(e, cfg, id)];
      left := left - {id};
      seen := seen + {id};
    }
    assert seen == e.channels.Keys;
    AllSeen(e, fees, capacity, hardCount, hardCapacity);
  }

  ghost predicate Sums(e: Evidence, seen: set<string>, fees: int, capacity: int) {
    fees == Sum(FleetFees(e.channels, seen)) && capacity == Sum(Capacities(e.channels, seen))
  }

  ghost predicate Bleeders(e: Evidence, seen: set<string>, count: nat, capacity: int) {
    count == |HardBleeders(e, seen)| && capacity == Sum(Capacities(e.channels, HardBleeders(e, seen)))
  }

  lemma SumsGrow(e: Evidence, seen: set<string>, id: string, fees: int, capacity: int)
    requires id in e.channels && id !in seen && Sums(e, seen, fees, capacity)
    ensures Sums(e, seen + {id}, fees + Fees30(e.channels[id]), capacity + e.channels[id].capacitySats)
  {
    hide Sum;
    FeesGrow(e.channels, seen, id);
    CapacityGrows(e.channels, seen, id);
  }

  lemma BleedersGrow(e: Evidence, seen: set<string>, id: string, count: nat, capacity: int)
    requires id in e.channels && id !in seen && Bleeders(e, seen, count, capacity)
    ensures HardBleeder(e, id) ==> Bleeders(e, seen + {id}, count + 1, capacity + e.channels[id].capacitySats)
    ensures !HardBleeder(e, id) ==> Bleeders(e, seen + {id}, count, capacity)
  {
    hide Sum;
    HardBleedersGrow(e, seen, id);
    if HardBleeder(e, id) { CapacityGrows(e.channels, HardBleeders(e, seen), id); }
  }

  lemma AllSeen(e: Evidence, fees: int, capacity: int, hardCount: nat, hardCapacity: int)
    requires Sums(e, e.channels.Keys, fees, capacity) && Bleeders(e, e.channels.Keys, hardCount, hardCapacity)
    ensures fees == Sum(FleetFees(e.channels, e.channels.Keys)) && capacity == Sum(Capacities(e.channels, e.channels.Keys))
    ensures hardCount == |HardBleeders(e, e.channels.Keys)|
    ensures hardCapacity == Sum(Capacities(e.channels, HardBleeders(e, e.channels.Keys)))
  {
  }

  lemma NothingYet(e: Evidence, cfg: Config)
    ensures Budgets(e, cfg, {}) == map[] && Sums(e, {}, 0, 0) && Bleeders(e, {}, 0, 0)
  {
    assert HardBleeders(e, {}) == {};
  }

  lemma BudgetsGrow(e: Evidence, cfg: Config, seen: set<string>, id: string)
    requires id in e.channels
    ensures Budgets(e, cfg, seen + {id}) == Budgets(e, cfg, seen)[id := BudgetOf(e, cfg, id)]
  {
    hide BudgetOf;
  }

  lemma FeesGrow(channels: map<string, Profile>, seen: set<string>, id: string)
    requires id in channels && id !in seen
    ensures Sum(FleetFees(channels, seen + {id})) == Sum(FleetFees(channels, seen)) + Fees30(channels[id])
  {
    hide Fees30, Sum;
    assert FleetFees(channels, seen + {id}) == FleetFees(channels, seen)[id := Fees30(channels[id])];
    SumUpdate(FleetFees(channels, seen), id, Fees30(channels[id]));
  }

  lemma CapacityGrows(channels: map<string, Profile>, seen: set<string>, id: string)
    requires id in channels && id !in seen
    ensures Sum(Capacities(channels, seen + {id})) == Sum(Capacities(channels, seen)) + channels[id].capacitySats
  {
    hide Sum;
    assert Capacities(channels, seen + {id}) == Capacities(channels, seen)[id := channels[id].capacitySats];
    SumUpdate(Capacities(channels, seen), id, channels[id].capacitySats);
  }

  lemma HardBleedersGrow(e: Evidence, seen: set<string>, id: string)
    requires id !in seen
    ensures id !in HardBleeders(e, seen)
    ensures HardBleeders(e, seen + {id}) == HardBleeders(e, seen) + (if HardBleeder(e, id) then {id} else {})
  {
  }
}
