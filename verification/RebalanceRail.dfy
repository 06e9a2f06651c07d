/**
  The rebalance intent/settle ledger of crates/revops-db/src/fee_runway.rs: an attempt row and
  its budget reservation are written together, and settled together exactly once.
*/
module RebalanceRail {
  import opened Outcomes

  datatype Intent = Intent(
    requestId: string, source: string, dest: string, amountSats: int, maxFeeSats: int,
    trigger: string, submittedAt: int)

  datatype Settle = Settle(
    requestId: string, outcome: string, detail: Option<string>, feePaidSats: Option<int>,
    paymentHash: Option<string>, reservationStatus: string, resolvedAt: int)

  datatype Attempt = Attempt(
    intent: Intent, paymentHash: Option<string>, outcome: Option<string>, detail: Option<string>,
    feePaidSats: Option<int>, completedAt: Option<int>)

  datatype Reservation = Reservation(
    requestId: string, sats: int, reservedAt: int, status: string, feeSats: Option<int>, resolvedAt: Option<int>)

  /** Row ids are positions: neither table ever deletes. */
  datatype Tables = Tables(attempts: seq<Attempt>, reservations: seq<Reservation>)

  const EMPTY := Tables([], [])
  const TRIGGERS := {"cycle", "manual", "manual_force"}
  const OUTCOMES := {"success", "rejected", "clean_failure_before_write", "outcome_unknown"}
  const STATUSES := {"active", "settled", "released", "quarantined"}

  predicate Taken(t: Tables, rid: string) {
    exists i :: 0 <= i < |t.attempts| && t.attempts[i].intent.requestId == rid
  }

  predicate IsOpen(a: Attempt, rid: string) { a.intent.requestId == rid && a.outcome.None? }

  predicate IsActive(r: Reservation, rid: string) { r.requestId == rid && r.status == "active" }

  predicate HasOpen(t: Tables, rid: string) {
    exists i :: 0 <= i < |t.attempts| && IsOpen(t.attempts[i], rid)
  }

  predicate HasActive(t: Tables, rid: string) {
    exists i :: 0 <= i < |t.reservations| && IsActive(t.reservations[i], rid)
  }

  /** UPDATE ... WHERE request_id = ? AND outcome IS NULL. */
  function CloseAttempts(attempts: seq<Attempt>, s: Settle): seq<Attempt> {
    seq(|attempts|, i requires 0 <= i < |attempts| =>
      var a := attempts[i];
      if IsOpen(a, s.requestId)
      then a.(outcome := Some(s.outcome), detail := s.detail, feePaidSats := s.feePaidSats,
              paymentHash := if s.paymentHash.Some? then s.paymentHash else a.paymentHash,
              completedAt := Some(s.resolvedAt))
      else a)
  }

  /** UPDATE ... WHERE attempt_request_id = ? AND status = 'active'. */
  function FlipReservations(rs: seq<Reservation>, s: Settle): seq<Reservation> {
    seq(|rs|, i requires 0 <= i < |rs| =>
      if IsActive(rs[i], s.requestId)
      then rs[i].(status := s.reservationStatus, feeSats := s.feePaidSats, resolvedAt := Some(s.resolvedAt))
      else rs[i])
  }

  /** Each call is BEGIN, two statements, COMMIT. */
  predicate InsertLands(t: Tables, x: Intent, failAt: nat) {
    failAt >= 4 && x.trigger in TRIGGERS && !Taken(t, x.requestId)
  }

  predicate SettleLands(t: Tables, s: Settle, failAt: nat) {
    && failAt >= 4
    && HasOpen(t, s.requestId)
    && s.outcome in OUTCOMES
    && (HasActive(t, s.requestId) ==> s.reservationStatus in STATUSES)
  }

  datatype Act = Submit(intent: Intent, failAt: nat) | Resolve(settle: Settle, failAt: nat)

  function Step(t: Tables, a: Act): Tables {
    match a
    case Submit(x, failAt) =>
      if InsertLands(t, x, failAt) then
        Tables(t.attempts + [Attempt(x, None, None, None, None, None)],
               t.reservations + [Reservation(x.requestId, x.amountSats, x.submittedAt, "active", None, None)])
      else t
    case Resolve(s, failAt) =>
      if SettleLands(t, s, failAt)
      then Tables(CloseAttempts(t.attempts, s), FlipReservations(t.reservations, s)) else t
  }

  function Run(acts: seq<Act>): Tables {
    if acts == [] then EMPTY else Step(Run(acts[..|acts| - 1]), acts[|acts| - 1])
  }

  class Rail {
    var db: Tables

    constructor ()
      ensures db == EMPTY
    {
      db := EMPTY;
    }

    method InsertRebalanceAttempt(x: Intent, failAt: nat) returns (r: Result<nat>)
      modifies this
      ensures r.Ok? <==> InsertLands(old(db), x, failAt)
      ensures r.Ok? ==> r.value == |old(db).attempts|
      ensures db == Step(old(db), Submit(x, failAt))
    {
      if failAt == 0 { return Err; }
      var saved := db;
      if failAt == 1 || x.trigger !in TRIGGERS || Taken(db, x.requestId) { return Err; }
      var id := |db.attempts|;
      db := db.(attempts := db.attempts + [Attempt(x, None, None, None, None, None)]);
      if failAt == 2 { db := saved; return Err; }
      db := db.(reservations := db.reservations
                + [Reservation(x.requestId, x.amountSats, x.submittedAt, "active", None, None)]);
      if failAt == 3 { db := saved; return Err; }
      return Ok(id);
    }

    method SettleRebalanceAttempt(s: Settle, failAt: nat) returns (r: Result<()>)
      modifies this
      ensures r.Ok? <==> SettleLands(old(db), s, failAt)
      ensures db == Step(old(db), Resolve(s, failAt))
    {
      if failAt <= 1 { return Err; }
      var saved := db;
      if !HasOpen(db, s.requestId) || s.outcome !in OUTCOMES { return Err; }
      db := db.(attempts := CloseAttempts(db.attempts, s));
      if failAt == 2 || (HasActive(db, s.requestId) && s.reservationStatus !in STATUSES) {
        db := saved;
        return Err;
      }
      db := db.(reservations := FlipReservations(db.reservations, s));
      if failAt == 3 { db := saved; return Err; }
      return Ok(());
    }
  }

  // ----- histories --------------------------------------------------------------------

  /** The settlement of `rid` that landed, the latest if there were several. */
  function SettledBy(acts: seq<Act>, rid: string): Option<Settle> {
    if acts == [] then None
    else
      var earlier := acts[..|acts| - 1];
      match acts[|acts| - 1]
      case Resolve(s, failAt) =>
        if s.requestId == rid && SettleLands(Run(earlier), s, failAt) then Some(s) else SettledBy(earlier, rid)
      case _ => SettledBy(earlier, rid)
  }

  function SettleCount(acts: seq<Act>, rid: string): nat {
    if acts == [] then 0
    else
      var earlier := acts[..|acts| - 1];
      SettleCount(earlier, rid)
      + match acts[|acts| - 1]
        case Resolve(s, failAt) => if s.requestId == rid && SettleLands(Run(earlier), s, failAt) then 1 else 0
        case _ => 0
  }

  /** Some settlement that landed named the status 'active'. */
  ghost predicate NamedActive(acts: seq<Act>) {
    exists rid :: SettledBy(acts, rid).Some? && SettledBy(acts, rid).value.reservationStatus == "active"
  }

  /** Attempt and reservation rows are in one-to-one correspondence, with unique request ids. */
  ghost predicate Paired(t: Tables) {
    && |t.attempts| == |t.reservations|
    && (forall i :: 0 <= i < |t.attempts| ==>
          && t.reservations[i].requestId == t.attempts[i].intent.requestId
          && t.reservations[i].sats == t.attempts[i].intent.amountSats
          && t.reservations[i].reservedAt == t.attempts[i].intent.submittedAt)
    && (forall i, j :: 0 <= i < j < |t.attempts| ==> t.attempts[i].intent.requestId != t.attempts[j].intent.requestId)
  }

  /** An attempt is unresolved iff its reservation is active. */
  ghost predicate Coherent(t: Tables) {
    && |t.attempts| == |t.reservations|
    && forall i :: 0 <= i < |t.attempts| ==> (t.attempts[i].outcome.None? <==> t.reservations[i].status == "active")
  }

  /** Outcome and status of every row are those of the settlement that landed for it, if one did. */
  ghost predicate FollowsHistory(t: Tables, acts: seq<Act>) {
    && |t.attempts| == |t.reservations|
    && (forall i :: 0 <= i < |t.attempts| ==>
          match SettledBy(acts, t.attempts[i].intent.requestId)
          case None => t.attempts[i].outcome.None? && t.reservations[i].status == "active"
          case Some(s) => t.attempts[i].outcome == Some(s.outcome) && t.reservations[i].status == s.reservationStatus)
    && (forall rid :: SettledBy(acts, rid).Some? ==> Taken(t, rid))
    && (forall rid :: SettleCount(acts, rid) == if SettledBy(acts, rid).Some? then 1 else 0)
  }

  lemma StepKeepsPaired(t: Tables, a: Act)
    requires Paired(t)
    ensures Paired(Step(t, a))
  {
  }

  lemma {:induction false} ResolveFollows(earlier: seq<Act>, s: Settle, failAt: nat)
    requires var t := Run(earlier); Paired(t) && FollowsHistory(t, earlier) && SettleLands(t, s, failAt)
    ensures var acts := earlier + [Resolve(s, failAt)]; FollowsHistory(Run(acts), acts)
  {
    var acts := earlier + [Resolve(s, failAt)];
    assert acts[..|acts| - 1] == earlier;
    var t, t' := Run(earlier), Run(acts);
    assert t' == Step(t, Resolve(s, failAt));
    var k :| 0 <= k < |t.attempts| && IsOpen(t.attempts[k], s.requestId);
    assert SettledBy(earlier, s.requestId).None?;
    forall rid ensures SettledBy(acts, rid) == (if rid == s.requestId then Some(s) else SettledBy(earlier, rid)) {}
    forall rid | SettledBy(acts, rid).Some? ensures Taken(t', rid) {
      if rid != s.requestId {
        var i :| 0 <= i < |t.attempts| && t.attempts[i].intent.requestId == rid;
        assert t'.attempts[i].intent.requestId == rid;
      } else {
        assert t'.attempts[k].intent.requestId == rid;
      }
    }
  }

  lemma {:induction false} SubmitFollows(earlier: seq<Act>, x: Intent, failAt: nat)
    requires var t := Run(earlier); Paired(t) && FollowsHistory(t, earlier) && InsertLands(t, x, failAt)
    ensures var acts := earlier + [Submit(x, failAt)]; FollowsHistory(Run(acts), acts)
  {
    var acts := earlier + [Submit(x, failAt)];
    assert acts[..|acts| - 1] == earlier;
    var t, t' := Run(earlier), Run(acts);
    assert t' == Step(t, Submit(x, failAt));
    forall rid ensures SettledBy(acts, rid) == SettledBy(earlier, rid) {}
    forall rid | SettledBy(acts, rid).Some? ensures Taken(t', rid) {
      var i :| 0 <= i < |t.attempts| && t.attempts[i].intent.requestId == rid;
      assert t'.attempts[i].intent.requestId == rid;
    }
  }

  lemma {:induction false} IdleFollows(earlier: seq<Act>, a: Act)
    requires var t := Run(earlier);
             && FollowsHistory(t, earlier)
             && match a case Submit(x, f) => !InsertLands(t, x, f) case Resolve(s, f) => !SettleLands(t, s, f)
    ensures var acts := earlier + [a]; FollowsHistory(Run(acts), acts)
  {
    var acts := earlier + [a];
    assert acts[..|acts| - 1] == earlier;
    assert Run(acts) == Step(Run(earlier), a) == Run(earlier);
    forall rid ensures SettledBy(acts, rid) == SettledBy(earlier, rid) {}
  }

  /** On every run the tables stay paired and each row shows exactly the settlement that landed for
      it; no request is ever settled twice. */
  lemma {:induction false} RailFollowsHistory(acts: seq<Act>)
    ensures Paired(Run(acts)) && FollowsHistory(Run(acts), acts)
  {
    if acts != [] {
      var earlier := acts[..|acts| - 1];
      var a := acts[|acts| - 1];
      assert acts == earlier + [a];
      RailFollowsHistory(earlier);
      StepKeepsPaired(Run(earlier), a);
      match a {
        case Submit(x, f) =>
          if InsertLands(Run(earlier), x, f) { SubmitFollows(earlier, x, f); } else { IdleFollows(earlier, a); }
        case Resolve(s, f) =>
          if SettleLands(Run(earlier), s, f) { ResolveFollows(earlier, s, f); } else { IdleFollows(earlier, a); }
      }
    }
  }

  lemma {:induction false} SettledAtMostOnce(acts: seq<Act>, rid: string)
    ensures SettleCount(acts, rid) <= 1
    ensures SettleCount(acts, rid) == 1 <==> Taken(Run(acts), rid) && !HasOpen(Run(acts), rid)
  {
    RailFollowsHistory(acts);
    var t := Run(acts);
    if Taken(t, rid) {
      var i :| 0 <= i < |t.attempts| && t.attempts[i].intent.requestId == rid;
      assert IsOpen(t.attempts[i], rid) <==> SettledBy(acts, rid).None?;
    }
  }

  /** "Unresolved iff active" holds after a run exactly when no settlement that landed named the
      status 'active'; the schema's CHECK does accept that name. */
  lemma {:induction false} CoherentIffNoneNamedActive(acts: seq<Act>)
    ensures Coherent(Run(acts)) <==> !NamedActive(acts)
  {
    RailFollowsHistory(acts);
    var t := Run(acts);
    if NamedActive(acts) {
      var rid :| SettledBy(acts, rid).Some? && SettledBy(acts, rid).value.reservationStatus == "active";
      var i :| 0 <= i < |t.attempts| && t.attempts[i].intent.requestId == rid;
      assert t.attempts[i].outcome.Some? && t.reservations[i].status == "active";
    }
  }

  /** Two calls that leave a resolved attempt with an active hold. */
  lemma ActiveSettleBreaksCoherence()
    ensures var x := Intent("r", "a", "b", 5, 1, "cycle", 0);
            var s := Settle("r", "success", None, None, None, "active", 1);
            !Coherent(Step(Step(EMPTY, Submit(x, 4)), Resolve(s, 4)))
  {
    var x := Intent("r", "a", "b", 5, 1, "cycle", 0);
    var s := Settle("r", "success", None, None, None, "active", 1);
    var t := Step(EMPTY, Submit(x, 4));
    assert IsOpen(t.attempts[0], "r");
    assert Step(t, Resolve(s, 4)).attempts[0].outcome.Some?;
  }

  // ----- held sats --------------------------------------------------------------------

  /** active_rebalance_reserved_sats. */
  function HeldSats(rs: seq<Reservation>, since: int): int {
    if rs == [] then 0
    else
      var r := rs[|rs| - 1];
      HeldSats(rs[..|rs| - 1], since)
      + if (r.status == "active" || r.status == "quarantined") && r.reservedAt >= since then r.sats else 0
  }

  /** The history still holds the money of `rid`: nothing settled it, or what settled it left it
      quarantined (or, against the documentation, active). */
  predicate StillHeld(acts: seq<Act>, rid: string) {
    match SettledBy(acts, rid)
    case None => true
    case Some(s) => s.reservationStatus == "quarantined" || s.reservationStatus == "active"
  }

  /** Amounts of the unresolved and quarantined attempts, read off the history. */
  function OwedSats(attempts: seq<Attempt>, acts: seq<Act>, since: int): int {
    if attempts == [] then 0
    else
      var x := attempts[|attempts| - 1].intent;
      OwedSats(attempts[..|attempts| - 1], acts, since)
      + if StillHeld(acts, x.requestId) && x.submittedAt >= since then x.amountSats else 0
  }

  lemma {:induction false} HeldIsOwed(attempts: seq<Attempt>, rs: seq<Reservation>, acts: seq<Act>, since: int)
    requires |attempts| == |rs|
    requires forall i :: 0 <= i < |rs| ==>
               && rs[i].sats == attempts[i].intent.amountSats
               && rs[i].reservedAt == attempts[i].intent.submittedAt
               && (StillHeld(acts, attempts[i].intent.requestId) <==>
                     rs[i].status == "active" || rs[i].status == "quarantined")
    ensures HeldSats(rs, since) == OwedSats(attempts, acts, since)
  {
    if rs != [] {
      HeldIsOwed(attempts[..|rs| - 1], rs[..|rs| - 1], acts, since);
    }
  }

  /** Conservation: after every run the held sats are the amounts of the attempts whose settlement
      is missing or kept the hold. */
  lemma {:induction false} HeldSatsConserved(acts: seq<Act>, since: int)
    ensures HeldSats(Run(acts).reservations, since) == OwedSats(Run(acts).attempts, acts, since)
  {
    RailFollowsHistory(acts);
    HeldIsOwed(Run(acts).attempts, Run(acts).reservations, acts, since);
  }
}
