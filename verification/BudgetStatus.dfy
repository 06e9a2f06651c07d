/** The windowed budget position of crates/revops-db/src/budget_status.rs. */
module BudgetStatus {
  import opened Outcomes
  import opened MapSums
  import opened BudgetRail
  import opened BudgetRuns

  const I64_MAX := 0x7FFF_FFFF_FFFF_FFFF

  datatype Status = Status(spent: int, reserved: int, committed: int)

  function LegacyWindow(legacy: map<string, Legacy>, since: int): map<string, int> {
    map k | k in legacy :: if legacy[k].at >= since then Hold(legacy[k].status, legacy[k].sats) else 0
  }

  function RebalanceWindow(spend: map<string, Resv>, since: int): map<string, int> {
    map k | k in spend ::
      if spend[k].at >= since && spend[k].category == "rebalance" then Hold(spend[k].status, spend[k].sats) else 0
  }

  predicate InI64(n: int) { -I64_MAX - 1 <= n <= I64_MAX }

  /** The three sums of one snapshot; the unified one is 0 when its table is absent. */
  ghost function Position(t: Tables, since: int, unifiedPresent: bool): Status {
    var spent := CostsSince(t.costs, since);
    var reserved := Sum(LegacyWindow(t.legacy, since))
                    + if unifiedPresent then Sum(RebalanceWindow(t.spend, since)) else 0;
    Status(spent, reserved, spent + reserved)
  }

  /** SUM answers a 64-bit integer or fails. */
  ghost predicate SumsFit(t: Tables, since: int, unifiedPresent: bool) {
    && InI64(CostsSince(t.costs, since)) && InI64(Sum(LegacyWindow(t.legacy, since)))
    && (unifiedPresent ==> InI64(Sum(RebalanceWindow(t.spend, since))))
  }

  /** read_budget_status: BEGIN, three sums, COMMIT, any of which may be refused. Both additions are checked, so
      an overflow is an error and never a wrapped figure. */
  method ReadBudgetStatus(t: Tables, since: int, unifiedPresent: bool, failAt: nat) returns (r: Result<Status>)
    ensures r.Ok? <==> && failAt >= 5 && SumsFit(t, since, unifiedPresent)
                       && InI64(Position(t, since, unifiedPresent).reserved)
                       && InI64(Position(t, since, unifiedPresent).committed)
    ensures r.Ok? ==> r.value == Position(t, since, unifiedPresent)
  {
    if failAt <= 1 { return Err; }
    var spent := CostsSince(t.costs, since);
    if !InI64(spent) || failAt == 2 { return Err; }
    var legacy := SumOf(LegacyWindow(t.legacy, since));
    if !InI64(legacy) || failAt == 3 { return Err; }
    var unified := 0;
    if unifiedPresent {
      unified := SumOf(RebalanceWindow(t.spend, since));
      if !InI64(unified) { return Err; }
    }
    if failAt == 4 { return Err; }
    var reserved := legacy + unified;
    if !InI64(reserved) { return Err; }
    if !InI64(spent + reserved) { return Err; }
    return Ok(Status(spent, reserved, spent + reserved));
  }

  /** The reported position never exceeds the total the reserve path gates on, at the same window
      start. */
  lemma StatusNeverExceedsTotal(t: Tables, since: int, unifiedPresent: bool)
    requires NonNegative(t)
    ensures Position(t, since, unifiedPresent).committed <= Total(t, since)
  {
    SumMonotone(LegacyWindow(t.legacy, since), LegacyHolds(t.legacy));
    SumMonotone(RebalanceWindow(t.spend, since), SpendHolds(t.spend));
    SumNonNegative(SpendHolds(t.spend));
    SumNonNegative(Windowed(t.events, since));
  }
}
