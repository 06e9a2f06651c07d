/**
  The Kalman flow filter of crates/revops-analytics/src/kalman.rs over exact reals, and the update
  gate of crates/revops-analytics/src/flow.rs. An f64 is a real here: rounding, NaN and infinities
  do not occur. The square root is whatever function the filter was built with.
*/
module Kalman {
  import opened Matrix
  import opened Numbers

  const MAX_VELOCITY: real := 0.5 / 24.0
  const MIN_VELOCITY: real := -0.5 / 24.0
  const BASE_PROCESS_NOISE: real := 0.01 / 24.0
  const VELOCITY_PROCESS_NOISE: real := 0.005 / 24.0
  const MIN_PROCESS_NOISE: real := 0.001 / 24.0
  const MAX_PROCESS_NOISE: real := 0.1 / 24.0
  const BASE_MEASUREMENT_NOISE: real := 0.05
  const MIN_MEASUREMENT_NOISE: real := 0.01
  const MAX_MEASUREMENT_NOISE: real := 0.5
  const INITIAL_VARIANCE: real := 0.1
  const VOLATILITY_SCALING: real := 2.0
  const CONFIDENCE_SCALING: real := 0.8
  const FLOOR: real := 0.0001
  const MIN_UPDATE_INTERVAL: int := 300

  datatype State = State(
    ratio: real, velocity: real, varRatio: real, varVelocity: real, covariance: real, lastUpdate: int,
    innovationVariance: real, lastInnovation: real, observations: int)
  {
    function P(): Mat { Sym(varRatio, covariance, varVelocity) }
  }

  const DEFAULT := State(0.0, 0.0, INITIAL_VARIANCE, INITIAL_VARIANCE, 0.0, 0, 0.01, 0.0, 0)

  function Clamp(lo: real, hi: real, x: real): (r: real)
    requires lo <= hi
    ensures lo <= r <= hi
  {
    MaxReal(lo, MinReal(hi, x))
  }

  function Clamped(s: State): State {
    s.(ratio := Clamp(-1.0, 1.0, s.ratio), velocity := Clamp(MIN_VELOCITY, MAX_VELOCITY, s.velocity))
  }

  // ----- repair ---------------------------------------------------------------------------------

  /** Both variances raised to the floor. */
  function Floored(s: State): State {
    s.(varRatio := MaxReal(FLOOR, s.varRatio), varVelocity := MaxReal(FLOOR, s.varVelocity))
  }

  function CappedCovariance(s: State, sqrt: real -> real): real {
    var maxCov := sqrt(s.varRatio * s.varVelocity) * 0.9;
    MaxReal(-maxCov, MinReal(maxCov, s.covariance))
  }

  /** ensure_positive_definite: the floors, then a covariance clamp if the determinant is not positive. */
  function Repaired(s: State, sqrt: real -> real): State {
    var f := Floored(s);
    if f.P().Det() <= 0.0 then f.(covariance := CappedCovariance(f, sqrt)) else f
  }

  // ----- predict ----------------------------------------------------------------------------------

  function RatioNoise(volatility: real): (q: real)
    ensures q >= MIN_PROCESS_NOISE
  {
    Clamp(MIN_PROCESS_NOISE, MAX_PROCESS_NOISE, BASE_PROCESS_NOISE * volatility * VOLATILITY_SCALING)
  }

  function VelocityNoise(volatility: real): (q: real)
    ensures q >= MIN_PROCESS_NOISE / 10.0
  {
    Clamp(MIN_PROCESS_NOISE / 10.0, MAX_PROCESS_NOISE / 10.0, VELOCITY_PROCESS_NOISE * volatility)
  }

  /** The covariance arithmetic of `predict`, as the source writes it out. */
  function Spread(s: State, dt: real, qr: real, qv: real): State {
    var p00, p01, p11 := s.varRatio, s.covariance, s.varVelocity;
    s.(varRatio := p00 + 2.0 * dt * p01 + dt * dt * p11 + qr * dt + qv * dt * dt * dt / 3.0,
       covariance := p01 + dt * p11 + qv * dt * dt / 2.0,
       varVelocity := p11 + qv * dt)
  }

  function Moved(s: State, dt: real): State { Clamped(s.(ratio := s.ratio + s.velocity * dt)) }

  function Predicted(s: State, dt: real, volatility: real, sqrt: real -> real): State {
    if dt <= 0.0 then s
    else Repaired(Spread(Moved(s, dt), dt, RatioNoise(volatility), VelocityNoise(volatility)), sqrt)
  }

  // ----- update -------------------------------------------------------------------------------------

  function MeasurementNoise(confidence: real): (r: real)
    ensures MIN_MEASUREMENT_NOISE <= r <= MAX_MEASUREMENT_NOISE
  {
    Clamp(MIN_MEASUREMENT_NOISE, MAX_MEASUREMENT_NOISE,
          BASE_MEASUREMENT_NOISE / MaxReal(0.1, confidence * CONFIDENCE_SCALING))
  }

  /** The innovation variance with its floor. */
  function InnovationScale(s: State, r: real): (v: real)
    ensures v > 0.0
  {
    if s.varRatio + r < 0.0000000001 then 0.0000000001 else s.varRatio + r
  }

  /** The covariance arithmetic of `update`, as the source writes it out. */
  function Narrowed(s: State, k0: real, k1: real, r: real): State {
    var p00, p01, p11 := s.varRatio, s.covariance, s.varVelocity;
    s.(varRatio := (1.0 - k0) * p00 * (1.0 - k0) + k0 * k0 * r,
       covariance := (1.0 - k0) * p01 - k1 * (1.0 - k0) * p00 + k0 * k1 * r,
       varVelocity := p11 - k1 * p01 - k1 * (p01 - k1 * p00) + k1 * k1 * r)
  }

  function NextInnovationVariance(v: real, innovation: real): (r: real)
    ensures r >= 0.001
  {
    MaxReal(0.001, 0.9 * v + 0.1 * innovation * innovation)
  }

  function Corrected(s: State, k0: real, k1: real, innovation: real): State {
    s.(ratio := s.ratio + k0 * innovation, velocity := s.velocity + k1 * innovation)
  }

  function Updated(s: State, observed: real, confidence: real, now: int, sqrt: real -> real): State {
    var r := MeasurementNoise(confidence);
    var innovation := observed - s.ratio;
    var scale := InnovationScale(s, r);
    var k0, k1 := s.varRatio / scale, s.covariance / scale;
    var bounded := Clamped(Repaired(Narrowed(Corrected(s, k0, k1, innovation), k0, k1, r), sqrt));
    bounded.(
      lastInnovation := innovation,
      innovationVariance := NextInnovationVariance(bounded.innovationVariance, innovation),
      lastUpdate := now,
      observations := bounded.observations + 1)
  }

  // ----- volatility ---------------------------------------------------------------------------------

  datatype Bucket = Bucket(out: real, inn: real)

  function SumAbsNet(bs: seq<Bucket>): (r: real)
    ensures r >= 0.0
  {
    if bs == [] then 0.0 else SumAbsNet(bs[..|bs| - 1]) + AbsReal(bs[|bs| - 1].out - bs[|bs| - 1].inn)
  }

  function SumAbsChange(bs: seq<Bucket>): (r: real)
    ensures r >= 0.0
  {
    if |bs| <= 1 then 0.0
    else
      var a, b := bs[|bs| - 2], bs[|bs| - 1];
      SumAbsChange(bs[..|bs| - 1]) + AbsReal((b.out - b.inn) - (a.out - a.inn))
  }

  /** The process-noise multiplier always lies between one half and two. */
  function Volatility(bs: seq<Bucket>): (v: real)
    ensures 0.5 <= v <= 2.0
    ensures |bs| < 3 ==> v == 1.0
  {
    if |bs| < 3 then 1.0
    else
      var meanChange := SumAbsChange(bs) / (|bs| - 1) as real;
      var meanFlow := SumAbsNet(bs) / |bs| as real;
      if meanFlow < 1000.0 then 0.5
      else
        var cv := meanChange / MaxReal(1.0, meanFlow);
        assert cv >= 0.0;
        0.5 + MinReal(1.5, cv * 3.0)
  }

  // ----- one call of apply_kalman_filter -----------------------------------------------------------

  datatype Kind = Untouched | PredictOnly | WithObservation

  datatype Call = Call(observed: real, confidence: real, buckets: seq<Bucket>, hasObservation: bool, now: int)

  predicate RecentlyUpdated(s: State, now: int) {
    s.lastUpdate > 0 && now - s.lastUpdate < MIN_UPDATE_INTERVAL
  }

  /** Hours since the last touch, a day on the first run, at most a week. */
  function Elapsed(s: State, now: int): real {
    MinReal(if s.lastUpdate > 0 then (now - s.lastUpdate) as real / 3600.0 else 24.0, 168.0)
  }

  function Applied(s: State, c: Call, sqrt: real -> real): State {
    if RecentlyUpdated(s, c.now) then s
    else
      var p := Predicted(s, Elapsed(s, c.now), Volatility(c.buckets), sqrt);
      if c.hasObservation then Updated(p, c.observed, c.confidence, c.now, sqrt) else p.(lastUpdate := c.now)
  }

  function KindOf(s: State, c: Call): Kind {
    if RecentlyUpdated(s, c.now) then Untouched
    else if c.hasObservation then WithObservation
    else PredictOnly
  }

  function RegimeChange(s: State, threshold: real, sqrt: real -> real): bool {
    AbsReal(s.lastInnovation) > threshold * sqrt(MaxReal(0.001, s.innovationVariance))
  }

  datatype FilterOutcome = FilterOutcome(
    ratio: real, velocity: real, uncertainty: real, regimeChange: bool, observations: int, kind: Kind)

  function OutcomeOf(s: State, kind: Kind, sqrt: real -> real): FilterOutcome {
    FilterOutcome(s.ratio, s.velocity, sqrt(MaxReal(0.0, s.varRatio)), RegimeChange(s, 2.5, sqrt), s.observations, kind)
  }

  class KalmanFlowFilter {
    var state: State
    const sqrt: real -> real

    constructor (sqrt: real -> real)
      ensures state == DEFAULT && this.sqrt == sqrt
    {
      state := DEFAULT;
      this.sqrt := sqrt;
    }

    method EnsurePositiveDefinite()
      modifies this
      ensures state == Repaired(old(state), sqrt)
    {
      state := state.(varRatio := MaxReal(FLOOR, state.varRatio));
      state := state.(varVelocity := MaxReal(FLOOR, state.varVelocity));
      if state.P().Det() <= 0.0 {
        state := state.(covariance := CappedCovariance(state, sqrt));
      }
    }

    method Predict(dt: real, volatility: real)
      modifies this
      ensures state == Predicted(old(state), dt, volatility, sqrt)
    {
      if dt <= 0.0 { return; }
      state := state.(ratio := state.ratio + state.velocity * dt);
      state := state.(ratio := Clamp(-1.0, 1.0, state.ratio));
      state := state.(velocity := Clamp(MIN_VELOCITY, MAX_VELOCITY, state.velocity));
      var qr, qv := RatioNoise(volatility), VelocityNoise(volatility);
      state := Spread(state, dt, qr, qv);
      EnsurePositiveDefinite();
    }

    method Update(observed: real, confidence: real, now: int) returns (innovation: real)
      modifies this
      ensures innovation == observed - old(state).ratio
      ensures state == Updated(old(state), observed, confidence, now, sqrt)
    {
      var r := MeasurementNoise(confidence);
      innovation := observed - state.ratio;
      hide Narrowed, Corrected, NextInnovationVariance;
      var scale := InnovationScale(state, r);
      var k0, k1 := state.varRatio / scale, state.covariance / scale;
      state := Corrected(state, k0, k1, innovation);
      state := Narrowed(state, k0, k1, r);
      EnsurePositiveDefinite();
      state := state.(ratio := Clamp(-1.0, 1.0, state.ratio));
      state := state.(velocity := Clamp(MIN_VELOCITY, MAX_VELOCITY, state.velocity));
      state := state.(lastInnovation := innovation);
      state := state.(innovationVariance := NextInnovationVariance(state.innovationVariance, innovation));
      state := state.(lastUpdate := now);
      state := state.(observations := state.observations + 1);
    }
  }

  method ApplyKalmanFilter(kf: KalmanFlowFilter, c: Call) returns (r: FilterOutcome)
    modifies kf
    ensures kf.state == Applied(old(kf.state), c, kf.sqrt)
    ensures r == OutcomeOf(kf.state, KindOf(old(kf.state), c), kf.sqrt)
  {
    var volatility := Volatility(c.buckets);
    var dt := Elapsed(kf.state, c.now);
    if RecentlyUpdated(kf.state, c.now) {
      return OutcomeOf(kf.state, Untouched, kf.sqrt);
    }
    kf.Predict(dt, volatility);
    var kind := PredictOnly;
    if c.hasObservation {
      var _ := kf.Update(c.observed, c.confidence, c.now);
      kind := WithObservation;
    } else {
      kf.state := kf.state.(lastUpdate := c.now);
    }
    return OutcomeOf(kf.state, kind, kf.sqrt);
  }
}
