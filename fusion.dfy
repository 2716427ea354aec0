/**
 * The gyroscope / rotation-vector fusion of `SensorFusion2Recorder`, as a
 * function from the recorder's state and one incoming event to the next
 * state and whether a fused event goes out. The state holds the values of
 * the four quaternion objects and of the scalar fields; the imperative
 * recorder in `FusionRecorder` is proved to follow these functions step by
 * step.
 */
module Fusion {
  import opened RealMath
  import opened QuatAlgebra
  import opened Events

  /** `NS2S`: nanoseconds to seconds. */
  const NanosToSeconds: real := 0.000000001
  /** `EPSILON`: below this angular speed the gyroscope axis is left undivided. */
  const Epsilon: real := 0.05
  /** `INDIRECT_INTERPOLATION_WEIGHT`: slerp weight per unit of angular speed. */
  const InterpolationWeight: real := 0.01
  /** `PANIC_THRESHOLD`: consecutive bad frames before a reset is considered. */
  const PanicThreshold: int := 60
  /** `OUTLIER_THRESHOLD`: below this agreement the rotation vector is ignored. */
  const OutlierThreshold: real := 0.85
  /** `OUTLIER_PANIC_THRESHOLD`: below this agreement the panic counter grows. */
  const OutlierPanicThreshold: real := 0.6
  /** The angular speed below which a panic reset is carried out. */
  const PanicSpeedLimit: real := 3.0

  /**
   * The fields of `SensorFusion2Recorder`: `init`, the values of
   * `mQuaternion` (estimate), `mQuaternionRotationVector` (reference) and
   * `deltaQuaternion` (delta), `timestamp`, `gyroscopeRotationVelocity`
   * (velocity) and `panicCounter`.
   */
  datatype FusionState = FusionState(
    init: bool,
    estimate: Quat,
    reference: Quat,
    delta: Quat,
    timestamp: real,
    velocity: real,
    panicCounter: int)

  /** The state of a freshly constructed recorder: three identity quaternions and zeroed scalars. */
  function Initial(): (s: FusionState)
    ensures !s.init && s.panicCounter == 0 && s.timestamp == 0.0 && s.velocity == 0.0
    ensures s.estimate == Identity() && s.reference == Identity() && s.delta == Identity()
  {
    FusionState(false, Identity(), Identity(), Identity(), 0.0, 0.0, 0)
  }

  /** The events the fusion casts to `ImuEvent` and reads three values of. */
  predicate WellFormed(ev: ImuEvent)
  {
    (ev.eventType == RotationVector || ev.eventType == Gyroscope) ==> |ev.values| >= 3
  }

  // ---------------------------------------------------------------------
  // Rotation-vector events (SensorFusion2Recorder.java:160-176)
  // ---------------------------------------------------------------------

  /** 1 - v0² - v1² - v2², what is left of a unit norm for the scalar part. */
  function RotationRadicand(values: seq<real>): real
    requires |values| >= 3
  {
    1.0 - values[0] * values[0] - values[1] * values[1] - values[2] * values[2]
  }

  /** The scalar part: the fourth value when there are exactly four, otherwise the root of what is left, or 0. */
  function RotationScalar(values: seq<real>, m: MathLib): real
    requires |values| >= 3
  {
    if |values| == 4 then values[3]
    else if RotationRadicand(values) > 0.0 then m.sqrt(RotationRadicand(values))
    else 0.0
  }

  /** The rotation-vector quaternion (v0, v1, v2, w). */
  function RotationQuat(values: seq<real>, m: MathLib): Quat
    requires |values| >= 3
  {
    Quat(values[0], values[1], values[2], RotationScalar(values, m))
  }

  /** The reference always takes the new reading; the estimate only on the first one. */
  function OnRotationVector(s: FusionState, values: seq<real>, m: MathLib): FusionState
    requires |values| >= 3
  {
    var q := RotationQuat(values, m);
    if s.init then s.(reference := q)
    else s.(reference := q, estimate := q, init := true)
  }

  /**
   * With three values the computed scalar is never negative and squares to
   * what is left of the unit norm, or to 0 when nothing is left; with four
   * it is the fourth value.
   */
  lemma RotationScalarCases(values: seq<real>, m: MathLib)
    requires |values| >= 3 && SqrtLaws(m)
    ensures var w := RotationScalar(values, m);
      && (|values| == 4 ==> w == values[3])
      && (|values| != 4 ==> 0.0 <= w && w * w == (if RotationRadicand(values) > 0.0 then RotationRadicand(values) else 0.0))
  {
    if |values| != 4 && RotationRadicand(values) > 0.0 {
      assert m.sqrt(RotationRadicand(values)) * m.sqrt(RotationRadicand(values)) == RotationRadicand(values);
    }
  }

  /** A three-value reading whose vector part is at most of unit length becomes a unit quaternion. */
  lemma RotationQuatIsUnit(values: seq<real>, m: MathLib)
    requires |values| >= 3 && |values| != 4 && SqrtLaws(m) && 0.0 <= RotationRadicand(values)
    ensures NormSq(RotationQuat(values, m)) == 1.0
  {
    RotationScalarCases(values, m);
    var w := RotationScalar(values, m);
    assert w * w == RotationRadicand(values);
  }

  // ---------------------------------------------------------------------
  // Gyroscope integration (SensorFusion2Recorder.java:182-216)
  // ---------------------------------------------------------------------

  /** The angular speed: the length of the gyroscope reading. */
  function Speed(v: Vec3, m: MathLib): real
  {
    m.sqrt(Norm3Sq(v))
  }

  /** The rotation axis: the reading divided by the speed above `Epsilon`, the raw reading otherwise. */
  function GyroAxis(v: Vec3, speed: real): Vec3
  {
    if speed > Epsilon then Vec3(v.x / speed, v.y / speed, v.z / speed) else v
  }

  /** The time since the previous gyroscope event, in seconds. */
  function TimeStep(timestamp: int, previous: real): real
  {
    (timestamp as real - previous) * NanosToSeconds
  }

  /** theta / 2 = speed * dT / 2. */
  function HalfAngle(speed: real, dT: real): real
  {
    speed * dT / 2.0
  }

  /** The delta rotation (sin(theta/2) axis, cos(theta/2)). */
  function DeltaRotation(axis: Vec3, half: real, m: MathLib): Quat
  {
    Quat(m.sin(half) * axis.x, m.sin(half) * axis.y, m.sin(half) * axis.z, m.cos(half))
  }

  /** The "process raw data" part: the delta is recomputed only after a first timestamp; the timestamp is always taken. */
  function Integrate(s: FusionState, values: seq<real>, timestamp: int, m: MathLib): FusionState
    requires |values| >= 3
  {
    if s.timestamp != 0.0 then
      var v := Vec3(values[0], values[1], values[2]);
      var speed := Speed(v, m);
      var half := HalfAngle(speed, TimeStep(timestamp, s.timestamp));
      s.(velocity := speed, delta := DeltaRotation(GyroAxis(v, speed), half, m), timestamp := timestamp as real)
    else s.(timestamp := timestamp as real)
  }

  /** Above `Epsilon`, the divided axis has unit length. */
  lemma GyroAxisIsUnit(v: Vec3, m: MathLib)
    requires SqrtLaws(m) && Speed(v, m) > Epsilon
    ensures Norm3Sq(GyroAxis(v, Speed(v, m))) == 1.0
  {
    var s := Speed(v, m);
    assert s * s == Norm3Sq(v);
    DividedAxisIsUnit(v.x, v.y, v.z, s);
  }

  /** With a unit axis the delta rotation is a unit quaternion, whatever the angle. */
  lemma DeltaRotationIsUnit(axis: Vec3, half: real, m: MathLib)
    requires TrigLaws(m) && Norm3Sq(axis) == 1.0
    ensures NormSq(DeltaRotation(axis, half, m)) == 1.0
  {
    var s, c := m.sin(half), m.cos(half);
    assert s * s + c * c == 1.0;
    assert NormSq(DeltaRotation(axis, half, m)) == s * s * Norm3Sq(axis) + c * c;
  }

  // ---------------------------------------------------------------------
  // Fusion once initialised (SensorFusion2Recorder.java:219-259)
  // ---------------------------------------------------------------------

  /** The agreement |estimate . reference| the tiers are chosen by. */
  function Agreement(s: FusionState): real
  {
    Abs(Dot(s.estimate, s.reference))
  }

  /** The new estimate from the gyroscope alone: delta * estimate, with no renormalisation. */
  function Compose(s: FusionState): FusionState
  {
    s.(estimate := Mul(s.delta, s.estimate))
  }

  /** The three tiers: good agreement pulls towards the reference and clears the counter; bad agreement counts. */
  function Correct(s: FusionState, m: MathLib): FusionState
    requires SqrtLaws(m)
  {
    var d := Agreement(s);
    if d < OutlierThreshold then
      if d < OutlierPanicThreshold then s.(panicCounter := s.panicCounter + 1) else s
    else
      s.(panicCounter := 0, estimate := QuatAlgebra.Slerp(s.estimate, s.reference, s.velocity * InterpolationWeight, m))
  }

  /** Past the threshold, the estimate is reset to the reference unless the device is still moving fast. */
  function PanicReset(s: FusionState): FusionState
  {
    if s.panicCounter > PanicThreshold && s.velocity < PanicSpeedLimit then
      s.(estimate := s.reference, panicCounter := 0)
    else s
  }

  function Fuse(s: FusionState, m: MathLib): FusionState
    requires SqrtLaws(m)
  {
    PanicReset(Correct(Compose(s), m))
  }

  function OnGyroscope(s: FusionState, values: seq<real>, timestamp: int, m: MathLib): FusionState
    requires SqrtLaws(m) && |values| >= 3
  {
    var s1 := Integrate(s, values, timestamp, m);
    if s1.init then Fuse(s1, m) else s1
  }

  // ---------------------------------------------------------------------
  // One call of onMotionEventUpdate
  // ---------------------------------------------------------------------

  /** The state after an event, and whether a `FusedRotationVector2` event (of the new estimate) goes out. */
  datatype StepResult = StepResult(state: FusionState, emitted: bool)

  function Step(s: FusionState, recording: bool, ev: ImuEvent, m: MathLib): StepResult
    requires SqrtLaws(m) && WellFormed(ev)
  {
    if !recording then StepResult(s, false)
    else if ev.eventType == RotationVector then StepResult(OnRotationVector(s, ev.values, m), false)
    else if ev.eventType == Gyroscope then StepResult(OnGyroscope(s, ev.values, ev.timestamp, m), s.init)
    else StepResult(s, false)
  }

  /** Exactly one output per gyroscope event once initialised, none otherwise; and nothing at all changes while not recording. */
  lemma StepEmission(s: FusionState, recording: bool, ev: ImuEvent, m: MathLib)
    requires SqrtLaws(m) && WellFormed(ev)
    ensures Step(s, recording, ev, m).emitted <==> recording && ev.eventType == Gyroscope && s.init
    ensures !recording ==> Step(s, recording, ev, m) == StepResult(s, false)
    ensures ev.eventType != RotationVector && ev.eventType != Gyroscope ==> Step(s, recording, ev, m) == StepResult(s, false)
  {
  }

  /** A rotation-vector event sets the reference; only the first one also sets the estimate and `init`. */
  lemma RotationVectorStep(s: FusionState, ev: ImuEvent, m: MathLib)
    requires SqrtLaws(m) && WellFormed(ev) && ev.eventType == RotationVector
    ensures var r := Step(s, true, ev, m);
      && !r.emitted && r.state.init
      && r.state.reference == RotationQuat(ev.values, m)
      && (s.init ==> r.state == s.(reference := RotationQuat(ev.values, m)))
      && (!s.init ==> r.state == s.(reference := RotationQuat(ev.values, m), estimate := RotationQuat(ev.values, m), init := true))
  {
  }

  /** `init` is never cleared. */
  lemma StepKeepsInit(s: FusionState, recording: bool, ev: ImuEvent, m: MathLib)
    requires SqrtLaws(m) && WellFormed(ev) && s.init
    ensures Step(s, recording, ev, m).state.init
  {
  }

  /**
   * A gyroscope event always takes the event's timestamp; the delta and the
   * speed are recomputed exactly when the previous timestamp is nonzero.
   */
  lemma GyroscopeIntegration(s: FusionState, ev: ImuEvent, m: MathLib)
    requires SqrtLaws(m) && WellFormed(ev) && ev.eventType == Gyroscope
    ensures var r := Step(s, true, ev, m).state;
      && r.timestamp == ev.timestamp as real
      && r.init == s.init && r.reference == s.reference
      && (s.timestamp == 0.0 ==> r.delta == s.delta && r.velocity == s.velocity)
      && (s.timestamp != 0.0 ==>
            var v := Vec3(ev.values[0], ev.values[1], ev.values[2]);
            && r.velocity == Speed(v, m)
            && r.delta == DeltaRotation(GyroAxis(v, Speed(v, m)), HalfAngle(Speed(v, m), TimeStep(ev.timestamp, s.timestamp)), m))
  {
    var s1 := Integrate(s, ev.values, ev.timestamp, m);
    if s1.init {
      var c := Correct(Compose(s1), m);
      assert c.delta == s1.delta && c.velocity == s1.velocity && c.timestamp == s1.timestamp && c.reference == s1.reference;
    }
  }

  /** Before initialisation a gyroscope event leaves the estimate and the counter alone and emits nothing. */
  lemma GyroscopeBeforeInit(s: FusionState, ev: ImuEvent, m: MathLib)
    requires SqrtLaws(m) && WellFormed(ev) && ev.eventType == Gyroscope && !s.init
    ensures var r := Step(s, true, ev, m);
      && !r.emitted && !r.state.init
      && r.state.estimate == s.estimate && r.state.panicCounter == s.panicCounter
  {
  }

  /**
   * After initialisation, with c the composed state (delta * estimate, not
   * renormalised) and d its agreement with the reference: d >= 0.85 pulls
   * the estimate towards the reference by slerp with the unclamped weight
   * velocity * 0.01 and clears the counter; 0.6 <= d < 0.85 keeps the counter;
   * d < 0.6 adds one to it. A counter past 60 then resets the estimate to the
   * reference (and the counter to 0) only when the speed is below 3.
   */
  lemma GyroscopeTiers(s: FusionState, ev: ImuEvent, m: MathLib)
    requires SqrtLaws(m) && WellFormed(ev) && ev.eventType == Gyroscope && s.init
    ensures var c := Compose(Integrate(s, ev.values, ev.timestamp, m));
      var d := Agreement(c);
      var r := Step(s, true, ev, m);
      var counter := if d >= OutlierThreshold then 0 else if d < OutlierPanicThreshold then s.panicCounter + 1 else s.panicCounter;
      var panic := counter > PanicThreshold && c.velocity < PanicSpeedLimit;
      && r.emitted
      && r.state.panicCounter == (if panic then 0 else counter)
      && r.state.estimate == (if panic then c.reference
                              else if d >= OutlierThreshold then QuatAlgebra.Slerp(c.estimate, c.reference, c.velocity * InterpolationWeight, m)
                              else c.estimate)
  {
  }

  /** Each event adds one to the counter, resets it, or leaves it; so it is never negative. */
  lemma CounterSteps(s: FusionState, recording: bool, ev: ImuEvent, m: MathLib)
    requires SqrtLaws(m) && WellFormed(ev)
    ensures var k := Step(s, recording, ev, m).state.panicCounter;
      k == s.panicCounter + 1 || k == 0 || k == s.panicCounter
    ensures 0 <= s.panicCounter ==> 0 <= Step(s, recording, ev, m).state.panicCounter
  {
  }

  /** Below the threshold no panic reset can happen: it takes more than 60 bad frames without a good one. */
  lemma PanicNeedsHistory(s: FusionState, ev: ImuEvent, m: MathLib)
    requires SqrtLaws(m) && WellFormed(ev) && ev.eventType == Gyroscope && s.init
    requires s.panicCounter < PanicThreshold
    ensures var c := Compose(Integrate(s, ev.values, ev.timestamp, m));
      var r := Step(s, true, ev, m).state;
      && r.panicCounter <= PanicThreshold
      && r.estimate == (if Agreement(c) >= OutlierThreshold
                        then QuatAlgebra.Slerp(c.estimate, c.reference, c.velocity * InterpolationWeight, m)
                        else c.estimate)
  {
    GyroscopeTiers(s, ev, m);
  }

  // ---------------------------------------------------------------------
  // A sequence of events
  // ---------------------------------------------------------------------

  /** The state after a sequence of events, and the estimates sent out on the way. */
  datatype RunResult = RunResult(state: FusionState, emitted: seq<Quat>)

  predicate AllWellFormed(evs: seq<ImuEvent>)
  {
    forall i :: 0 <= i < |evs| ==> WellFormed(evs[i])
  }

  function Run(s: FusionState, recording: bool, evs: seq<ImuEvent>, m: MathLib): RunResult
    requires SqrtLaws(m) && AllWellFormed(evs)
    decreases |evs|
  {
    if evs == [] then RunResult(s, [])
    else
      var r := Step(s, recording, evs[0], m);
      var rest := Run(r.state, recording, evs[1..], m);
      RunResult(rest.state, (if r.emitted then [r.state.estimate] else []) + rest.emitted)
  }

  /** The number of gyroscope events in a sequence. */
  function GyroCount(evs: seq<ImuEvent>): nat
  {
    if evs == [] then 0 else (if evs[0].eventType == Gyroscope then 1 else 0) + GyroCount(evs[1..])
  }

  /** Once initialised, a run stays initialised and emits once per gyroscope event. */
  lemma {:induction false} RunAfterInit(s: FusionState, evs: seq<ImuEvent>, m: MathLib)
    requires SqrtLaws(m) && AllWellFormed(evs) && s.init
    ensures Run(s, true, evs, m).state.init
    ensures |Run(s, true, evs, m).emitted| == GyroCount(evs)
    decreases |evs|
  {
    if evs != [] {
      var r := Step(s, true, evs[0], m);
      assert WellFormed(evs[0]);
      StepKeepsInit(s, true, evs[0], m);
      StepEmission(s, true, evs[0], m);
      assert AllWellFormed(evs[1..]) by {
        forall i | 0 <= i < |evs[1..]| ensures WellFormed(evs[1..][i]) {
          assert evs[1..][i] == evs[i + 1];
        }
      }
      RunAfterInit(r.state, evs[1..], m);
    }
  }

  /** The counter stays non-negative over any run. */
  lemma {:induction false} RunCounterNonNegative(s: FusionState, recording: bool, evs: seq<ImuEvent>, m: MathLib)
    requires SqrtLaws(m) && AllWellFormed(evs) && 0 <= s.panicCounter
    ensures 0 <= Run(s, recording, evs, m).state.panicCounter
    decreases |evs|
  {
    if evs != [] {
      var r := Step(s, recording, evs[0], m);
      assert WellFormed(evs[0]);
      CounterSteps(s, recording, evs[0], m);
      assert AllWellFormed(evs[1..]) by {
        forall i | 0 <= i < |evs[1..]| ensures WellFormed(evs[1..][i]) {
          assert evs[1..][i] == evs[i + 1];
        }
      }
      RunCounterNonNegative(r.state, recording, evs[1..], m);
    }
  }

  /** A recorder that is not recording ignores every event. */
  lemma {:induction false} RunNotRecording(s: FusionState, evs: seq<ImuEvent>, m: MathLib)
    requires SqrtLaws(m) && AllWellFormed(evs)
    ensures Run(s, false, evs, m) == RunResult(s, [])
    decreases |evs|
  {
    if evs != [] {
      assert AllWellFormed(evs[1..]) by {
        forall i | 0 <= i < |evs[1..]| ensures WellFormed(evs[1..][i]) {
          assert evs[1..][i] == evs[i + 1];
        }
      }
      RunNotRecording(s, evs[1..], m);
    }
  }

  /**
   * Until the first rotation vector arrives nothing is sent out: a recorder
   * that has not been initialised (as a fresh one, `Initial()`, is not) keeps
   * its estimate and counter through any run of other events.
   */
  lemma {:induction false} RunBeforeRotation(s: FusionState, evs: seq<ImuEvent>, m: MathLib)
    requires SqrtLaws(m) && AllWellFormed(evs) && !s.init
    requires forall i :: 0 <= i < |evs| ==> evs[i].eventType != RotationVector
    ensures var r := Run(s, true, evs, m);
      && r.emitted == [] && !r.state.init
      && r.state.estimate == s.estimate && r.state.panicCounter == s.panicCounter
    decreases |evs|
  {
    if evs != [] {
      var r := Step(s, true, evs[0], m);
      assert WellFormed(evs[0]) && evs[0].eventType != RotationVector;
      if evs[0].eventType == Gyroscope {
        GyroscopeBeforeInit(s, evs[0], m);
      }
      assert AllWellFormed(evs[1..]) && forall i :: 0 <= i < |evs[1..]| ==> evs[1..][i].eventType != RotationVector by {
        forall i | 0 <= i < |evs[1..]| ensures WellFormed(evs[1..][i]) && evs[1..][i].eventType != RotationVector {
          assert evs[1..][i] == evs[i + 1];
        }
      }
      RunBeforeRotation(r.state, evs[1..], m);
    }
  }

  // ---------------------------------------------------------------------
  // Two scenarios over many events
  // ---------------------------------------------------------------------

  /** A zero turn is the identity rotation, whatever the axis. */
  lemma ZeroTurnIsIdentity(axis: Vec3, m: MathLib)
    requires TrigLaws(m)
    ensures DeltaRotation(axis, 0.0, m) == Identity()
  {
    assert m.sin(0.0) == 0.0 && m.cos(0.0) == 1.0;
  }

  /** A zero reading has zero angular speed. */
  lemma ZeroReadingSpeed(m: MathLib)
    requires SqrtLaws(m)
    ensures Speed(Vec3(0.0, 0.0, 0.0), m) == 0.0
  {
    assert Norm3Sq(Vec3(0.0, 0.0, 0.0)) == 0.0;
    SqrtZero(m);
  }

  /** A slerp from a unit quaternion to itself stays there, whatever the weight. */
  lemma SelfSlerp(e: Quat, t: real, m: MathLib)
    requires SqrtLaws(m) && NormSq(e) == 1.0
    ensures QuatAlgebra.Slerp(e, e, t, m) == e
  {
    assert Abs(Dot(e, e)) == 1.0;
  }

  /** A gyroscope event that reads zero on all three axes. */
  predicate ZeroGyro(ev: ImuEvent)
  {
    && ev.eventType == Gyroscope && |ev.values| >= 3
    && ev.values[0] == 0.0 && ev.values[1] == 0.0 && ev.values[2] == 0.0
  }

  /** A zero reading integrates to the identity delta (or keeps an identity delta). */
  lemma StationaryIntegrate(s: FusionState, values: seq<real>, timestamp: int, m: MathLib)
    requires Lawful(m) && |values| >= 3 && values[0] == 0.0 && values[1] == 0.0 && values[2] == 0.0
    requires s.delta == Identity()
    ensures var r := Integrate(s, values, timestamp, m);
      && r.delta == Identity() && r.estimate == s.estimate && r.reference == s.reference
      && r.init == s.init && r.panicCounter == s.panicCounter
  {
    if s.timestamp != 0.0 {
      var v := Vec3(values[0], values[1], values[2]);
      assert v == Vec3(0.0, 0.0, 0.0);
      ZeroReadingSpeed(m);
      var dT := TimeStep(timestamp, s.timestamp);
      assert HalfAngle(0.0, dT) == 0.0;
      assert GyroAxis(v, 0.0) == v;
      ZeroTurnIsIdentity(v, m);
    }
  }

  /** A delta that fixes the estimate leaves the whole state as it was. */
  lemma ComposeFixed(s: FusionState)
    requires Mul(s.delta, s.estimate) == s.estimate
    ensures Compose(s) == s
  {
  }

  /** An identity delta leaves the estimate as it was. */
  lemma ComposeIdentity(s: FusionState)
    requires s.delta == Identity()
    ensures Compose(s) == s
  {
    IdentityNeutral(s.estimate);
    ComposeFixed(s);
  }

  /** A unit estimate on the reference agrees with it fully. */
  lemma SelfAgreement(s: FusionState)
    requires s.estimate == s.reference && NormSq(s.estimate) == 1.0
    ensures Agreement(s) == 1.0
  {
    assert Dot(s.estimate, s.reference) == NormSq(s.estimate);
  }

  /** With an identity delta and the estimate on the reference, fusing changes nothing but the counter, which is cleared. */
  lemma StationaryFuse(s: FusionState, m: MathLib)
    requires SqrtLaws(m) && s.delta == Identity() && s.estimate == s.reference && NormSq(s.estimate) == 1.0
    ensures Fuse(s, m) == s.(panicCounter := 0)
  {
    ComposeIdentity(s);
    SelfAgreement(s);
    SelfSlerp(s.estimate, s.velocity * InterpolationWeight, m);
  }

  /** One zero reading while the estimate agrees with the reference: the same estimate goes out again. */
  lemma StationaryStep(s: FusionState, ev: ImuEvent, m: MathLib)
    requires Lawful(m) && ZeroGyro(ev) && s.init
    requires s.delta == Identity() && s.estimate == s.reference && NormSq(s.estimate) == 1.0
    ensures WellFormed(ev)
    ensures var r := Step(s, true, ev, m);
      && r.emitted && r.state.init && r.state.panicCounter == 0
      && r.state.estimate == s.estimate && r.state.reference == s.reference && r.state.delta == Identity()
  {
    var s1 := Integrate(s, ev.values, ev.timestamp, m);
    StationaryIntegrate(s, ev.values, ev.timestamp, m);
    StationaryFuse(s1, m);
  }

  /** Zero readings put in front of a run of the same estimate make a longer run of it. */
  lemma ConsSame(e: Quat, rest: seq<Quat>)
    requires forall k :: 0 <= k < |rest| ==> rest[k] == e
    ensures forall k :: 0 <= k < |[e] + rest| ==> ([e] + rest)[k] == e
  {
  }

  /** The events after the first of an all-zero batch are all zero too, and every one of them is well formed. */
  lemma ZeroGyroTail(evs: seq<ImuEvent>)
    requires forall i :: 0 <= i < |evs| ==> ZeroGyro(evs[i])
    ensures AllWellFormed(evs)
    ensures evs != [] ==> forall i :: 0 <= i < |evs[1..]| ==> ZeroGyro(evs[1..][i])
  {
    assert AllWellFormed(evs) by {
      forall i | 0 <= i < |evs| ensures WellFormed(evs[i]) {
        assert ZeroGyro(evs[i]);
      }
    }
  }

  /**
   * Stationary stability: once the estimate is a unit quaternion on the
   * reference and the delta is the identity, any number of zero gyroscope
   * readings leave the estimate where it is, and every fused event sent out
   * carries that same estimate.
   */
  lemma {:induction false} RunStationary(s: FusionState, evs: seq<ImuEvent>, m: MathLib)
    requires Lawful(m) && s.init
    requires s.delta == Identity() && s.estimate == s.reference && NormSq(s.estimate) == 1.0
    requires forall i :: 0 <= i < |evs| ==> ZeroGyro(evs[i])
    ensures AllWellFormed(evs)
    ensures var r := Run(s, true, evs, m);
      && r.state.estimate == s.estimate && r.state.reference == s.reference
      && |r.emitted| == |evs|
      && (forall k :: 0 <= k < |r.emitted| ==> r.emitted[k] == s.estimate)
      && (evs != [] ==> r.state.panicCounter == 0)
    decreases |evs|
  {
    ZeroGyroTail(evs);
    if evs != [] {
      var r := Step(s, true, evs[0], m);
      StationaryStep(s, evs[0], m);
      RunStationary(r.state, evs[1..], m);
      ConsSame(s.estimate, Run(r.state, true, evs[1..], m).emitted);
    }
  }

  /** A gyroscope event with the previous event's timestamp and a speed below the panic limit. */
  predicate StillGyro(ev: ImuEvent, timestamp: real, m: MathLib)
  {
    && ev.eventType == Gyroscope && |ev.values| >= 3 && ev.timestamp as real == timestamp
    && Speed(Vec3(ev.values[0], ev.values[1], ev.values[2]), m) < PanicSpeedLimit
  }

  /** No time has passed: the delta becomes the identity, and only the speed is taken from the reading. */
  lemma StillIntegrate(s: FusionState, values: seq<real>, timestamp: int, m: MathLib)
    requires TrigLaws(m) && |values| >= 3 && s.timestamp != 0.0 && timestamp as real == s.timestamp
    ensures Integrate(s, values, timestamp, m)
         == s.(delta := Identity(), velocity := Speed(Vec3(values[0], values[1], values[2]), m))
  {
    var v := Vec3(values[0], values[1], values[2]);
    var speed := Speed(v, m);
    assert TimeStep(timestamp, s.timestamp) == 0.0;
    assert HalfAngle(speed, 0.0) == 0.0;
    ZeroTurnIsIdentity(GyroAxis(v, speed), m);
  }

  /** One still event at poor agreement: the counter grows, and the estimate jumps to the reference once it passes 60. */
  lemma StillStep(s: FusionState, ev: ImuEvent, m: MathLib)
    requires Lawful(m) && s.init && s.timestamp != 0.0 && StillGyro(ev, s.timestamp, m)
    requires Agreement(s) < OutlierPanicThreshold
    ensures WellFormed(ev)
    ensures var r := Step(s, true, ev, m).state;
      && r.init && r.reference == s.reference && r.timestamp == s.timestamp
      && (s.panicCounter + 1 <= PanicThreshold ==> r.estimate == s.estimate && r.panicCounter == s.panicCounter + 1)
      && (s.panicCounter + 1 > PanicThreshold ==> r.estimate == s.reference && r.panicCounter == 0)
  {
    var s1 := Integrate(s, ev.values, ev.timestamp, m);
    StillIntegrate(s, ev.values, ev.timestamp, m);
    ComposeIdentity(s1);
    assert Agreement(s1) == Agreement(s);
  }

  /** The events after the first of a still batch are still too, and every one of them is well formed. */
  lemma StillGyroTail(evs: seq<ImuEvent>, timestamp: real, m: MathLib)
    requires forall i :: 0 <= i < |evs| ==> StillGyro(evs[i], timestamp, m)
    ensures AllWellFormed(evs)
    ensures evs != [] ==> forall i :: 0 <= i < |evs[1..]| ==> StillGyro(evs[1..][i], timestamp, m)
  {
    assert AllWellFormed(evs) by {
      forall i | 0 <= i < |evs| ensures WellFormed(evs[i]) {
        assert StillGyro(evs[i], timestamp, m);
      }
    }
  }

  /** Still events at poor agreement that stay within the threshold only count: the estimate does not move. */
  lemma {:induction false} RunStill(s: FusionState, evs: seq<ImuEvent>, m: MathLib)
    requires Lawful(m) && s.init && s.timestamp != 0.0 && Agreement(s) < OutlierPanicThreshold
    requires forall i :: 0 <= i < |evs| ==> StillGyro(evs[i], s.timestamp, m)
    requires s.panicCounter + |evs| <= PanicThreshold
    ensures AllWellFormed(evs)
    ensures var r := Run(s, true, evs, m).state;
      && r.estimate == s.estimate && r.reference == s.reference && r.timestamp == s.timestamp
      && r.init && r.panicCounter == s.panicCounter + |evs|
    decreases |evs|
  {
    StillGyroTail(evs, s.timestamp, m);
    if evs != [] {
      var r := Step(s, true, evs[0], m);
      StillStep(s, evs[0], m);
      RunStill(r.state, evs[1..], m);
    }
  }

  /**
   * The panic scenario: still events at poor agreement that bring the counter
   * exactly past 60 (61 of them from a cleared counter) end with the estimate
   * reset to the reference and the counter cleared.
   */
  lemma {:induction false} RunPanicReset(s: FusionState, evs: seq<ImuEvent>, m: MathLib)
    requires Lawful(m) && s.init && s.timestamp != 0.0 && Agreement(s) < OutlierPanicThreshold
    requires forall i :: 0 <= i < |evs| ==> StillGyro(evs[i], s.timestamp, m)
    requires 0 <= s.panicCounter <= PanicThreshold && s.panicCounter + |evs| == PanicThreshold + 1
    ensures AllWellFormed(evs)
    ensures var r := Run(s, true, evs, m).state;
      r.estimate == s.reference && r.reference == s.reference && r.panicCounter == 0
    decreases |evs|
  {
    StillGyroTail(evs, s.timestamp, m);
    var r := Step(s, true, evs[0], m);
    StillStep(s, evs[0], m);
    if |evs| == 1 {
      assert evs[1..] == [];
    } else {
      assert r.state.estimate == s.estimate;
      RunPanicReset(r.state, evs[1..], m);
    }
  }
}
