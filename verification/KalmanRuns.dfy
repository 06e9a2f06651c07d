/** The matrix theorem behind the filter's hand-expanded algebra, and what it gives on every run. */
module KalmanRuns {
  import opened Matrix
  import opened Kalman
  import opened Numbers

  // ----- the expanded covariance is the textbook covariance -------------------------------------------

  /** F = [1 dt; 0 1] */
  function Transition(dt: real): Mat { Mat(1.0, dt, 0.0, 1.0) }

  /** White-noise acceleration plus ratio noise. */
  function ProcessNoise(dt: real, qr: real, qv: real): Mat {
    Sym(qv * dt * dt * dt / 3.0 + qr * dt, qv * dt * dt / 2.0, qv * dt)
  }

  /** I - K H for the gain K = (k0, k1)' and the observation H = (1, 0). */
  function OneMinusGain(k0: real, k1: real): Mat { IDENTITY.Minus(Mat(k0, 0.0, k1, 0.0)) }

  function GainOuter(k0: real, k1: real, r: real): Mat { Mat(k0 * k0 * r, k0 * k1 * r, k0 * k1 * r, k1 * k1 * r) }

  /** predict computes F P F' + Q. */
  lemma SpreadIsTransition(s: State, dt: real, qr: real, qv: real)
    ensures Spread(s, dt, qr, qv).P()
            == Transition(dt).Times(s.P()).Times(Transition(dt).Transposed()).Plus(ProcessNoise(dt, qr, qv))
  {
    var a := Spread(s, dt, qr, qv).P();
    var b := Transition(dt).Times(s.P()).Times(Transition(dt).Transposed()).Plus(ProcessNoise(dt, qr, qv));
    assert a.a == b.a && a.b == b.b && a.c == b.c && a.d == b.d;
  }

  lemma SandwichEntries(w: real, k: real, p00: real, p01: real, p11: real)
    ensures var j := Mat(w, 0.0, k, 1.0);
            j.Times(Sym(p00, p01, p11)).Times(j.Transposed())
            == Sym(w * p00 * w, w * p00 * k + w * p01, (k * p00 + p01) * k + (k * p01 + p11))
  {
  }

  /** For any gain at all, update computes the Joseph form (I-KH) P (I-KH)' + K r K'. */
  lemma NarrowedIsJoseph(s: State, k0: real, k1: real, r: real)
    ensures Narrowed(s, k0, k1, r).P()
            == OneMinusGain(k0, k1).Times(s.P()).Times(OneMinusGain(k0, k1).Transposed()).Plus(GainOuter(k0, k1, r))
  {
    var a := Narrowed(s, k0, k1, r).P();
    var j := OneMinusGain(k0, k1);
    var b := j.Times(s.P()).Times(j.Transposed()).Plus(GainOuter(k0, k1, r));
    assert j == Mat(1.0 - k0, 0.0, -k1, 1.0);
    SandwichEntries(1.0 - k0, -k1, s.varRatio, s.covariance, s.varVelocity);
    assert a.a == b.a;
    assert a.b == b.b == a.c == b.c;
    assert a.d == b.d;
  }

  /** The gain equations, without division. */
  ghost predicate IsGain(s: State, r: real, k0: real, k1: real) {
    k0 * (s.varRatio + r) == s.varRatio && k1 * (s.varRatio + r) == s.covariance
  }

  lemma NarrowedEntries(s: State, r: real, k0: real, k1: real)
    requires IsGain(s, r, k0, k1)
    ensures var n := Narrowed(s, k0, k1, r);
            && n.varRatio == (1.0 - k0) * s.varRatio
            && n.covariance == (1.0 - k0) * s.covariance
            && n.varVelocity == s.varVelocity - k1 * s.covariance
  {
    var p00, p01 := s.varRatio, s.covariance;
    assert k0 * (k0 * p00 + k0 * r) == k0 * p00;
    assert k1 * (k0 * p00 + k0 * r) == k1 * p00;
    assert k1 * (k1 * p00 + k1 * r) == k1 * p01;
  }

  lemma GainsCommute(p00: real, p01: real, scale: real, k0: real, k1: real)
    requires k0 * scale == p00 && k1 * scale == p01
    ensures k1 * p00 == k0 * p01
  {
    assert k1 * (k0 * scale) == k0 * (k1 * scale);
  }

  lemma Complement(p00: real, r: real, k0: real)
    requires k0 * (p00 + r) == p00
    ensures (1.0 - k0) * (p00 + r) == r
  {
    assert (1.0 - k0) * (p00 + r) == (p00 + r) - k0 * (p00 + r);
  }

  lemma GainTimes(k0: real, k1: real, p00: real, p01: real, p11: real)
    ensures OneMinusGain(k0, k1).Times(Sym(p00, p01, p11))
            == Mat(p00 - k0 * p00, p01 - k0 * p01, p01 - k1 * p00, p11 - k1 * p01)
  {
    assert OneMinusGain(k0, k1) == Mat(1.0 - k0, 0.0, -k1, 1.0);
    LowerTimes(1.0 - k0, -k1, p00, p01, p11);
    hide OneMinusGain;
    WeightedRest(k0, p00);
    WeightedRest(k0, p01);
    Negated(k1, p00);
    Negated(k1, p01);
  }

  lemma LowerTimes(w: real, k: real, p00: real, p01: real, p11: real)
    ensures Mat(w, 0.0, k, 1.0).Times(Sym(p00, p01, p11)) == Mat(w * p00, w * p01, k * p00 + p01, k * p01 + p11)
  {
    var l, m := Mat(w, 0.0, k, 1.0), Sym(p00, p01, p11);
    ZeroTimes(l.b, m.c);
    ZeroTimes(l.b, m.d);
    OneTimes(l.d, m.c);
    OneTimes(l.d, m.d);
  }

  lemma ZeroTimes(z: real, x: real)
    requires z == 0.0
    ensures z * x == 0.0
  {
  }

  lemma OneTimes(o: real, x: real)
    requires o == 1.0
    ensures o * x == x
  {
  }

  lemma Negated(k: real, p: real)
    ensures (-k) * p == -(k * p)
  {
  }

  lemma WeightedRest(k: real, p: real)
    ensures (1.0 - k) * p == p - k * p
  {
  }

  lemma ScaledDet(w: real, p00: real, p01: real, p11: real, k0: real, k1: real)
    requires w == 1.0 - k0 && k1 * p00 == k0 * p01
    ensures w * p00 * (p11 - k1 * p01) - w * p01 * (w * p01) == w * (p00 * p11 - p01 * p01)
  {
    WeightedRest(k0, p01);
    assert p00 * (k1 * p01) == (k1 * p00) * p01;
    assert p00 * (p11 - k1 * p01) == p00 * p11 - p00 * (k1 * p01);
    assert p01 * (w * p01) == p01 * p01 - (k0 * p01) * p01;
    Factored(w, p00, p11 - k1 * p01, p01, w * p01);
  }

  lemma Factored(w: real, a: real, b: real, c: real, d: real)
    ensures w * a * b - w * c * d == w * (a * b - c * d)
  {
    assert w * a * b == w * (a * b) && w * c * d == w * (c * d);
  }

  lemma NarrowedMatrix(s: State, r: real, k0: real, k1: real)
    requires IsGain(s, r, k0, k1)
    ensures Narrowed(s, k0, k1, r).P()
            == Sym((1.0 - k0) * s.varRatio, (1.0 - k0) * s.covariance, s.varVelocity - k1 * s.covariance)
  {
    NarrowedEntries(s, r, k0, k1);
    hide Narrowed, IsGain;
  }

  lemma StandardMatrix(k0: real, k1: real, p00: real, p01: real, p11: real)
    requires k1 * p00 == k0 * p01
    ensures OneMinusGain(k0, k1).Times(Sym(p00, p01, p11))
            == Sym((1.0 - k0) * p00, (1.0 - k0) * p01, p11 - k1 * p01)
  {
    GainTimes(k0, k1, p00, p01, p11);
    hide OneMinusGain;
    WeightedRest(k0, p00);
    WeightedRest(k0, p01);
  }

  /** At the Kalman gain the expanded form is the standard (I-KH) P, and the determinant is exactly
      r / (p00 + r) times the old one. */
  lemma NarrowedIsStandard(s: State, r: real, k0: real, k1: real)
    requires IsGain(s, r, k0, k1)
    ensures Narrowed(s, k0, k1, r).P() == OneMinusGain(k0, k1).Times(s.P())
    ensures Narrowed(s, k0, k1, r).P().Det() == (1.0 - k0) * s.P().Det()
    ensures (1.0 - k0) * (s.varRatio + r) == r
  {
    var p00, p01, p11 := s.varRatio, s.covariance, s.varVelocity;
    GainsCommute(p00, p01, p00 + r, k0, k1);
    Complement(p00, r, k0);
    NarrowedMatrix(s, r, k0, k1);
    StandardMatrix(k0, k1, p00, p01, p11);
    ScaledDet(1.0 - k0, p00, p01, p11, k0, k1);
    hide Narrowed, IsGain, OneMinusGain;
  }

  /**
    The corrected ratio is the mean of prediction and observation weighted by the other's variance, so the
    remaining residual is r / (p00 + r) of the innovation; the velocity moves with it as the covariance says.
  */
  lemma CorrectionIsWeightedMean(s: State, r: real, k0: real, k1: real, observed: real)
    requires IsGain(s, r, k0, k1)
    ensures var u := Corrected(s, k0, k1, observed - s.ratio);
            && (s.varRatio + r) * u.ratio == r * s.ratio + s.varRatio * observed
            && (s.varRatio + r) * (observed - u.ratio) == r * (observed - s.ratio)
            && (s.varRatio + r) * (u.velocity - s.velocity) == s.covariance * (observed - s.ratio)
  {
    var scale, innovation := s.varRatio + r, observed - s.ratio;
    ScaledStep(scale, k0, innovation);
    ScaledStep(scale, k1, innovation);
    assert scale * (s.ratio + k0 * innovation) == scale * s.ratio + s.varRatio * innovation;
    assert s.varRatio * innovation == s.varRatio * observed - s.varRatio * s.ratio;
    assert scale * s.ratio == s.varRatio * s.ratio + r * s.ratio;
  }

  lemma ScaledStep(scale: real, k: real, x: real)
    ensures scale * (k * x) == (k * scale) * x
  {
  }

  // ----- positive definiteness ---------------------------------------------------------------------------

  lemma NoiseIsPositive(dt: real, qr: real, qv: real)
    requires dt > 0.0 && qr > 0.0 && qv > 0.0
    ensures PositiveDefinite(ProcessNoise(dt, qr, qv))
  {
    var b := Product(qr, dt);
    var d := Product(qv, dt);
    var dd := Product(d, dt);
    var ddd := Product(dd, dt);
    var e := Product(b, d);
    var f := Product(ddd, d);
    var m := ProcessNoise(dt, qr, qv);
    assert m.a == ddd / 3.0 + b && m.d == d && m.b == dd / 2.0;
    assert dd * dd == ddd * d;
    assert m.Det() == f / 3.0 + e - f / 4.0;
  }

  /** F P F' is positive definite when P is: the transition has determinant one. */
  lemma TransitionKeepsPositive(p: Mat, dt: real)
    requires PositiveDefinite(p)
    ensures PositiveDefinite(Transition(dt).Times(p).Times(Transition(dt).Transposed()))
  {
    var q := Transition(dt).Times(p).Times(Transition(dt).Transposed());
    assert q.a == Form(p, 1.0, dt) && q.d == p.d && q.b == p.b + dt * p.d == q.c;
    assert q.Det() == p.Det();
    PositiveForm(p, 1.0, dt);
  }

  lemma FlooredKeepsPositive(s: State)
    requires PositiveDefinite(s.P())
    ensures PositiveDefinite(Floored(s).P())
  {
    RaisedDiagonal(s.varRatio, s.covariance, s.varVelocity, Floored(s).varRatio, Floored(s).varVelocity);
  }

  /** On a positive definite matrix the repair is the two floors: the clamp is dead. */
  lemma RepairIsFloors(s: State, sqrt: real -> real)
    requires PositiveDefinite(s.P())
    ensures Repaired(s, sqrt) == Floored(s) && PositiveDefinite(Repaired(s, sqrt).P())
  {
    FlooredKeepsPositive(s);
  }

  /** Predicting over any positive time keeps the matrix positive definite and never needs the clamp. */
  lemma PredictKeepsPositive(s: State, dt: real, volatility: real, sqrt: real -> real)
    requires PositiveDefinite(s.P()) && dt > 0.0
    ensures PositiveDefinite(Predicted(s, dt, volatility, sqrt).P())
    ensures Predicted(s, dt, volatility, sqrt)
            == Floored(Spread(Moved(s, dt), dt, RatioNoise(volatility), VelocityNoise(volatility)))
  {
    var qr, qv := RatioNoise(volatility), VelocityNoise(volatility);
    assert qr > 0.0 && qv > 0.0;
    var m := Moved(s, dt);
    assert m.P() == s.P();
    SpreadIsTransition(m, dt, qr, qv);
    TransitionKeepsPositive(s.P(), dt);
    NoiseIsPositive(dt, qr, qv);
    SumOfPositive(Transition(dt).Times(s.P()).Times(Transition(dt).Transposed()), ProcessNoise(dt, qr, qv));
    RepairIsFloors(Spread(m, dt, qr, qv), sqrt);
  }

  lemma GainsSolve(s: State, r: real)
    requires s.varRatio > 0.0 && r >= MIN_MEASUREMENT_NOISE
    ensures InnovationScale(s, r) == s.varRatio + r
    ensures var v := InnovationScale(s, r); IsGain(s, r, s.varRatio / v, s.covariance / v)
  {
  }

  lemma GainBounds(s: State, r: real, k0: real, k1: real)
    requires PositiveDefinite(s.P()) && r > 0.0 && IsGain(s, r, k0, k1)
    ensures 0.0 < k0 < 1.0 && k1 * s.covariance >= 0.0
  {
    var scale, w := s.varRatio + r, 1.0 - k0;
    assert scale * w == r;
    CancelPositive(scale, w);
    assert scale * k0 == s.varRatio;
    CancelPositive(scale, k0);
    var k1k1 := SquareOf(k1);
    NonNegativeProduct(k1k1, scale);
    assert k1 * s.covariance == k1k1 * scale;
  }

  lemma NarrowedKeepsPositive(s: State, r: real, k0: real, k1: real)
    requires PositiveDefinite(s.P()) && r > 0.0 && IsGain(s, r, k0, k1)
    ensures var n := Narrowed(s, k0, k1, r);
            PositiveDefinite(n.P()) && n.varRatio < s.varRatio && n.varVelocity <= s.varVelocity
  {
    NarrowedIsStandard(s, r, k0, k1);
    NarrowedEntries(s, r, k0, k1);
    GainBounds(s, r, k0, k1);
    hide Narrowed, IsGain;
    var n := Narrowed(s, k0, k1, r);
    var w := 1.0 - k0;
    var p00' := Product(w, s.varRatio);
    var gone := Product(k0, s.varRatio);
    assert p00' == s.varRatio - gone;
    var det' := Product(w, s.P().Det());
    PositiveDiagonal(n.varRatio, n.covariance, n.varVelocity);
  }

  lemma PositiveDiagonal(a: real, b: real, d: real)
    requires a > 0.0 && a * d - b * b > 0.0
    ensures d > 0.0
  {
    var bb := SquareOf(b);
    CancelPositive(a, d);
  }

  /** From a positive definite state neither the floor on the innovation variance nor the covariance
      clamp fires in `update`, and the state stays positive definite. Neither variance grows exactly
      when both already meet their floor. */
  lemma UpdateKeepsPositive(s: State, observed: real, confidence: real, now: int, sqrt: real -> real)
    requires PositiveDefinite(s.P())
    ensures var r, u := MeasurementNoise(confidence), Updated(s, observed, confidence, now, sqrt);
            && InnovationScale(s, r) == s.varRatio + r
            && PositiveDefinite(u.P())
            && u.covariance == Narrowed(s, s.varRatio / (s.varRatio + r), s.covariance / (s.varRatio + r), r).covariance
            && (u.varRatio <= s.varRatio <==> s.varRatio >= FLOOR)
            && (u.varVelocity <= s.varVelocity <==> s.varVelocity >= FLOOR)
  {
    hide MeasurementNoise, NextInnovationVariance, Narrowed, PositiveDefinite;
    var r := MeasurementNoise(confidence);
    SoundDiagonal(s);
    GainsSolve(s, r);
    var scale := s.varRatio + r;
    var k0, k1 := s.varRatio / scale, s.covariance / scale;
    var moved := Corrected(s, k0, k1, observed - s.ratio);
    assert moved.P() == s.P();
    NarrowedEntries(s, r, k0, k1);
    NarrowedEntries(moved, r, k0, k1);
    NarrowedKeepsPositive(moved, r, k0, k1);
    RepairIsFloors(Narrowed(moved, k0, k1, r), sqrt);
  }

  lemma SoundDiagonal(s: State)
    requires PositiveDefinite(s.P())
    ensures s.varRatio > 0.0 && s.varVelocity > 0.0
  {
  }

  // ----- runs of apply_kalman_filter -----------------------------------------------------------------------

  function Run(calls: seq<Call>, sqrt: real -> real): State {
    if calls == [] then DEFAULT else Applied(Run(calls[..|calls| - 1], sqrt), calls[|calls| - 1], sqrt)
  }

  ghost predicate Healthy(s: State) {
    && PositiveDefinite(s.P())
    && s.varRatio >= FLOOR && s.varVelocity >= FLOOR
    && -1.0 <= s.ratio <= 1.0
    && MIN_VELOCITY <= s.velocity <= MAX_VELOCITY
    && s.innovationVariance >= 0.001
  }

  lemma ElapsedIsPositive(s: State, now: int)
    requires !RecentlyUpdated(s, now)
    ensures 0.0 < Elapsed(s, now) <= 168.0
  {
  }

  lemma PredictKeepsHealthy(s: State, dt: real, volatility: real, sqrt: real -> real)
    requires Healthy(s) && dt > 0.0
    ensures Healthy(Predicted(s, dt, volatility, sqrt))
  {
    PredictKeepsPositive(s, dt, volatility, sqrt);
    hide Spread;
    var m := Moved(s, dt);
    SpreadKeepsMean(m, dt, RatioNoise(volatility), VelocityNoise(volatility));
  }

  lemma SpreadKeepsMean(s: State, dt: real, qr: real, qv: real)
    ensures var t := Spread(s, dt, qr, qv);
            t.ratio == s.ratio && t.velocity == s.velocity && t.innovationVariance == s.innovationVariance
  {
  }

  lemma UpdateKeepsHealthy(s: State, observed: real, confidence: real, now: int, sqrt: real -> real)
    requires Healthy(s)
    ensures Healthy(Updated(s, observed, confidence, now, sqrt))
  {
    UpdateKeepsPositive(s, observed, confidence, now, sqrt);
    UpdateBounds(s, observed, confidence, now, sqrt);
  }

  lemma UpdateBounds(s: State, observed: real, confidence: real, now: int, sqrt: real -> real)
    ensures var u := Updated(s, observed, confidence, now, sqrt);
            && u.varRatio >= FLOOR && u.varVelocity >= FLOOR
            && -1.0 <= u.ratio <= 1.0 && MIN_VELOCITY <= u.velocity <= MAX_VELOCITY
            && u.innovationVariance >= 0.001
  {
    hide Narrowed, Corrected, NextInnovationVariance;
  }

  lemma CallKeepsHealthy(s: State, c: Call, sqrt: real -> real)
    requires Healthy(s)
    ensures Healthy(Applied(s, c, sqrt))
  {
    hide Predicted, Updated, Volatility, Elapsed;
    if !RecentlyUpdated(s, c.now) {
      ElapsedIsPositive(s, c.now);
      PredictKeepsHealthy(s, Elapsed(s, c.now), Volatility(c.buckets), sqrt);
      if c.hasObservation {
        UpdateKeepsHealthy(Predicted(s, Elapsed(s, c.now), Volatility(c.buckets), sqrt),
                           c.observed, c.confidence, c.now, sqrt);
      }
    }
  }

  /** Every state of every run from the default one is positive definite and within its bounds. */
  lemma {:induction false} EveryRunIsHealthy(calls: seq<Call>, sqrt: real -> real)
    ensures Healthy(Run(calls, sqrt))
  {
    if calls != [] {
      EveryRunIsHealthy(calls[..|calls| - 1], sqrt);
      CallKeepsHealthy(Run(calls[..|calls| - 1], sqrt), calls[|calls| - 1], sqrt);
    } else {
      assert DEFAULT.P().Det() == 0.01;
    }
  }

  /** On every run an observation never widens what the prediction before it left: neither variance grows. */
  lemma ObservationsNeverWiden(calls: seq<Call>, c: Call, sqrt: real -> real)
    requires !RecentlyUpdated(Run(calls, sqrt), c.now) && c.hasObservation
    ensures var s := Run(calls, sqrt);
            var before, after := Predicted(s, Elapsed(s, c.now), Volatility(c.buckets), sqrt), Applied(s, c, sqrt);
            after.varRatio <= before.varRatio && after.varVelocity <= before.varVelocity
  {
    hide Predicted, Updated, Volatility, Elapsed;
    var s := Run(calls, sqrt);
    EveryRunIsHealthy(calls, sqrt);
    ElapsedIsPositive(s, c.now);
    PredictKeepsHealthy(s, Elapsed(s, c.now), Volatility(c.buckets), sqrt);
    UpdateKeepsPositive(Predicted(s, Elapsed(s, c.now), Volatility(c.buckets), sqrt), c.observed, c.confidence, c.now, sqrt);
  }

  lemma {:induction false} CallIgnoresSqrt(s: State, c: Call, f: real -> real, g: real -> real)
    requires Healthy(s)
    ensures Applied(s, c, f) == Applied(s, c, g)
  {
    if !RecentlyUpdated(s, c.now) {
      ElapsedIsPositive(s, c.now);
      var dt, v := Elapsed(s, c.now), Volatility(c.buckets);
      PredictKeepsPositive(s, dt, v, f);
      PredictKeepsPositive(s, dt, v, g);
      if c.hasObservation { UpdateIgnoresSqrt(Predicted(s, dt, v, f), c.observed, c.confidence, c.now, f, g); }
    }
  }

  lemma UpdateIgnoresSqrt(s: State, observed: real, confidence: real, now: int, f: real -> real, g: real -> real)
    requires PositiveDefinite(s.P())
    ensures Updated(s, observed, confidence, now, f) == Updated(s, observed, confidence, now, g)
  {
    var r := MeasurementNoise(confidence);
    GainsSolve(s, r);
    var k0, k1 := s.varRatio / InnovationScale(s, r), s.covariance / InnovationScale(s, r);
    var moved := Corrected(s, k0, k1, observed - s.ratio);
    NarrowedKeepsPositive(moved, r, k0, k1);
    RepairIsFloors(Narrowed(moved, k0, k1, r), f);
    RepairIsFloors(Narrowed(moved, k0, k1, r), g);
  }

  /** The branch that takes a square root is never reached: no run depends on what it returns. */
  lemma {:induction false} RepairBranchIsDead(calls: seq<Call>, f: real -> real, g: real -> real)
    ensures Run(calls, f) == Run(calls, g)
  {
    if calls != [] {
      var earlier := calls[..|calls| - 1];
      RepairBranchIsDead(earlier, f, g);
      EveryRunIsHealthy(earlier, f);
      CallIgnoresSqrt(Run(earlier, f), calls[|calls| - 1], f, g);
    }
  }

  // ----- the 300 second gate --------------------------------------------------------------------------------

  /** Call `i` touched the filter. */
  predicate Touches(calls: seq<Call>, i: nat, sqrt: real -> real)
    requires i < |calls|
  {
    !RecentlyUpdated(Run(calls[..i], sqrt), calls[i].now)
  }

  function TouchCount(calls: seq<Call>, i: nat, j: nat, sqrt: real -> real): nat
    requires i <= j <= |calls|
    decreases j
  {
    if i == j then 0 else TouchCount(calls, i, j - 1, sqrt) + if Touches(calls, j - 1, sqrt) then 1 else 0
  }

  lemma {:induction false} LastUpdateAdvances(calls: seq<Call>, i: nat, j: nat, sqrt: real -> real)
    requires i < j <= |calls| && Touches(calls, i, sqrt) && calls[i].now > 0
    ensures Run(calls[..j], sqrt).lastUpdate >= calls[i].now + MIN_UPDATE_INTERVAL * TouchCount(calls, i + 1, j, sqrt)
    decreases j
  {
    hide Applied;
    var w := Run(calls[..j - 1], sqrt);
    assert calls[..j][..j - 1] == calls[..j - 1];
    CallSetsLastUpdate(w, calls[j - 1], sqrt);
    if j > i + 1 {
      LastUpdateAdvances(calls, i, j - 1, sqrt);
    }
  }

  lemma CallSetsLastUpdate(s: State, c: Call, sqrt: real -> real)
    ensures Applied(s, c, sqrt).lastUpdate == if RecentlyUpdated(s, c.now) then s.lastUpdate else c.now
  {
    hide Narrowed, Corrected, Spread, Volatility;
  }

  /** Once a positive clock was consumed, each touching call is at least 300 s after the one before:
      between touching calls `i` and `j` lie at least 300 s for every touch in between and at `j`. */
  lemma {:induction false} TouchesAreSpaced(calls: seq<Call>, i: nat, j: nat, sqrt: real -> real)
    requires i < j < |calls| && calls[i].now > 0
    requires Touches(calls, i, sqrt) && Touches(calls, j, sqrt)
    ensures calls[j].now >= calls[i].now + MIN_UPDATE_INTERVAL * (1 + TouchCount(calls, i + 1, j, sqrt))
  {
    LastUpdateAdvances(calls, i, j, sqrt);
  }

  /** A call within the gate leaves the whole filter as it was. */
  lemma GatedCallIsInvisible(s: State, c: Call, sqrt: real -> real)
    requires s.lastUpdate > 0
    ensures KindOf(s, c) == Untouched <==> c.now < s.lastUpdate + MIN_UPDATE_INTERVAL
    ensures KindOf(s, c) == Untouched ==> Applied(s, c, sqrt) == s
  {
  }

  /** The calls of a run that touched the filter, in order. */
  function Touching(calls: seq<Call>, sqrt: real -> real): seq<Call> {
    if calls == [] then []
    else
      var n := |calls| - 1;
      Touching(calls[..n], sqrt) + if Touches(calls, n, sqrt) then [calls[n]] else []
  }

  /** Gated calls might as well not have been made: a run is the run of its touching calls alone. */
  lemma {:induction false} RunIsOfTouchingCalls(calls: seq<Call>, sqrt: real -> real)
    ensures Run(Touching(calls, sqrt), sqrt) == Run(calls, sqrt)
  {
    hide Applied, RecentlyUpdated;
    if calls != [] {
      var n := |calls| - 1;
      var earlier, c := calls[..n], calls[n];
      RunIsOfTouchingCalls(earlier, sqrt);
      if Touches(calls, n, sqrt) {
        var t := Touching(earlier, sqrt);
        assert (t + [c])[..|t|] == t;
      } else {
        RecentMeansTouched(Run(earlier, sqrt), c);
        GatedCallIsInvisible(Run(earlier, sqrt), c, sqrt);
        assert Touching(calls, sqrt) == Touching(earlier, sqrt) + [] == Touching(earlier, sqrt);
      }
    }
  }

  lemma RecentMeansTouched(s: State, c: Call)
    requires RecentlyUpdated(s, c.now)
    ensures s.lastUpdate > 0 && KindOf(s, c) == Untouched
  {
  }

  // ----- what an observation leaves -------------------------------------------------------------------------

  /** The updated ratio variance is at most the noise of the observation, or the floor. */
  lemma UpdateIsAsSureAsObservation(s: State, observed: real, confidence: real, now: int, sqrt: real -> real)
    requires PositiveDefinite(s.P())
    ensures Updated(s, observed, confidence, now, sqrt).varRatio <= MaxReal(FLOOR, MeasurementNoise(confidence))
  {
    hide MeasurementNoise, NextInnovationVariance, Narrowed, PositiveDefinite;
    var r := MeasurementNoise(confidence);
    SoundDiagonal(s);
    GainsSolve(s, r);
    var scale := s.varRatio + r;
    var k0, k1 := s.varRatio / scale, s.covariance / scale;
    var moved := Corrected(s, k0, k1, observed - s.ratio);
    assert moved.P() == s.P();
    NarrowedEntries(moved, r, k0, k1);
    NarrowedKeepsPositive(moved, r, k0, k1);
    RepairIsFloors(Narrowed(moved, k0, k1, r), sqrt);
    RestIsBelowNoise(s.varRatio, r, k0);
  }

  lemma RestIsBelowNoise(p: real, r: real, k: real)
    requires p > 0.0 && r > 0.0 && k * (p + r) == p
    ensures (1.0 - k) * p <= r
  {
    Complement(p, r, k);
    var w := 1.0 - k;
    assert w * (p + r) == r;
    CancelPositive(p + r, w);
    var wr := Product(w, r);
    assert w * p == r - w * r;
  }

  /** On every run: after an observed touching call the ratio is known at least as well as that observation. */
  lemma ObservedRunsAreSure(calls: seq<Call>, c: Call, sqrt: real -> real)
    requires !RecentlyUpdated(Run(calls, sqrt), c.now) && c.hasObservation
    ensures Applied(Run(calls, sqrt), c, sqrt).varRatio <= MaxReal(FLOOR, MeasurementNoise(c.confidence))
  {
    hide Predicted, Updated, Volatility, Elapsed, MeasurementNoise;
    var s := Run(calls, sqrt);
    EveryRunIsHealthy(calls, sqrt);
    ElapsedIsPositive(s, c.now);
    PredictKeepsHealthy(s, Elapsed(s, c.now), Volatility(c.buckets), sqrt);
    UpdateIsAsSureAsObservation(Predicted(s, Elapsed(s, c.now), Volatility(c.buckets), sqrt),
                                c.observed, c.confidence, c.now, sqrt);
  }

  /** The input on which a floor raises a variance: a state surer than the floor allows. */
  lemma FloorRaisesVariance(sqrt: real -> real)
    ensures var s := DEFAULT.(varRatio := 0.00005);
            PositiveDefinite(s.P()) && Updated(s, 0.0, 1.0, 1, sqrt).varRatio > s.varRatio
  {
    var s := DEFAULT.(varRatio := 0.00005);
    assert s.P().Det() > 0.0;
    UpdateKeepsPositive(s, 0.0, 1.0, 1, sqrt);
  }
}
