/**
 * `SensorFusion2Recorder`: the fusion state held in three `Quaternion`
 * objects and four scalar fields, updated in place by `onMotionEventUpdate`,
 * with the recording flags, the listeners and the writer of the underlying
 * `SensorRecorder`. Each step is proved to follow `Fusion.Step`, and each
 * emission to land on the writer's or the listeners' trace.
 */
module FusionRecorder {
  import opened RealMath
  import opened QuatAlgebra
  import opened Events
  import opened Representation
  import opened Fusion
  import opened Recorders

  class SensorFusion2Recorder {
    /** The inherited `SensorRecorder` part. */
    const recorder: SensorRecorder
    /** `mQuaternion`: the fused orientation. */
    const estimate: Quaternion
    /** `mQuaternionRotationVector`: the last rotation-vector reading. */
    const reference: Quaternion
    /** `deltaQuaternion`: the last gyroscope increment. */
    const delta: Quaternion
    var timestamp: real
    var velocity: real
    var panicCounter: int
    var init: bool

    /** Three separate, well-formed quaternions that share no array, and a counter that is never negative. */
    ghost predicate Valid()
      reads this, recorder
    {
      && recorder.Valid()
      && estimate.Local() && reference.Local() && delta.Local()
      && estimate != reference && estimate != delta && reference != delta
      && estimate.ApartFrom(reference) && estimate.ApartFrom(delta) && reference.ApartFrom(delta)
      && 0 <= panicCounter
    }

    /** The values the fields hold, as a `Fusion.FusionState`. */
    ghost function State(): FusionState
      reads this, estimate.points, reference.points, delta.points
      requires estimate.Local() && reference.Local() && delta.Local()
    {
      FusionState(init, estimate.Value(), reference.Value(), delta.Value(), timestamp, velocity, panicCounter)
    }

    /** The field initialisers: three identity quaternions, zeroed scalars, not initialised. */
    constructor ()
      ensures Valid() && State() == Initial()
      ensures fresh(recorder) && !recorder.recording && recorder.listeners == None
      ensures recorder.written == [] && recorder.delivered == []
    {
      recorder := new SensorRecorder();
      estimate := new Quaternion();
      reference := new Quaternion();
      delta := new Quaternion();
      timestamp := 0.0;
      velocity := 0.0;
      panicCounter := 0;
      init := false;
    }

    /**
     * `onMotionEventUpdate(motionEvent)`. Nothing happens while not
     * recording; a rotation-vector event updates the reference (and, the
     * first time, the estimate); a gyroscope event integrates the delta and,
     * once initialised, fuses and hands one record of the new estimate to the
     * writer, or to every listener in list order. A gyroscope event sent to
     * the file needs a writer (a null one would throw).
     */
    method OnMotionEventUpdate(ev: ImuEvent, elapsed: int, m: MathLib)
      requires Valid() && SqrtLaws(m) && WellFormed(ev)
      requires recorder.recording && recorder.recordingToFile && ev.eventType == Gyroscope && init
               ==> recorder.writer != NoWriter
      modifies this, estimate.points, estimate`dirty, reference.points, reference`dirty
      modifies delta.points, delta`dirty, delta.inputCopy, recorder`written, recorder`delivered
      ensures Valid()
      ensures var r := Step(old(State()), recorder.recording, ev, m);
        var rec := FusionRecord(r.state.estimate, FusedRotationVector2, elapsed);
        && State() == r.state
        && recorder.written == old(recorder.written)
             + (if r.emitted && recorder.recordingToFile then WriteOutcome(recorder.writer, rec) else [])
        && recorder.delivered == old(recorder.delivered)
             + (if r.emitted && !recorder.recordingToFile then Deliveries(recorder.listeners.value, rec) else [])
    {
      if !recorder.recording {
        return;
      }
      if ev.eventType == RotationVector {
        OnRotationVectorEvent(ev.values, m);
      } else if ev.eventType == Gyroscope {
        OnGyroscopeEvent(ev.values, ev.timestamp, elapsed, m);
      }
    }

    /** The gyroscope branch: integrate, and once initialised fuse and notify. */
    method OnGyroscopeEvent(values: seq<real>, eventTimestamp: int, elapsed: int, m: MathLib)
      requires Valid() && SqrtLaws(m) && |values| >= 3 && recorder.recording
      requires recorder.recordingToFile && init ==> recorder.writer != NoWriter
      modifies `timestamp, `velocity, `panicCounter, estimate.points, estimate`dirty
      modifies delta.points, delta`dirty, delta.inputCopy, recorder`written, recorder`delivered
      ensures Valid()
      ensures var after := OnGyroscope(old(State()), values, eventTimestamp, m);
        var rec := FusionRecord(after.estimate, FusedRotationVector2, elapsed);
        && State() == after
        && recorder.written == old(recorder.written)
             + (if old(init) && recorder.recordingToFile then WriteOutcome(recorder.writer, rec) else [])
        && recorder.delivered == old(recorder.delivered)
             + (if old(init) && !recorder.recordingToFile then Deliveries(recorder.listeners.value, rec) else [])
    {
      IntegrateGyroscope(values, eventTimestamp, m);
      if init {
        FuseGyroscope(m);
        Notify(elapsed);
      }
    }

    /** The rotation-vector branch: w from the fourth value or from the unit norm, then the reference (and the first estimate). */
    method OnRotationVectorEvent(values: seq<real>, m: MathLib)
      requires Valid() && |values| >= 3
      modifies `init, estimate.points, estimate`dirty, reference.points, reference`dirty
      ensures Valid() && State() == Fusion.OnRotationVector(old(State()), values, m)
    {
      var w := 0.0;
      if |values| == 4 {
        w := values[3];
      } else {
        w := RotationRadicand(values);
        w := if w > 0.0 then m.sqrt(w) else 0.0;
      }
      reference.SetXYZW(values[0], values[1], values[2], w);
      if !init {
        estimate.SetXYZW(values[0], values[1], values[2], w);
        init := true;
      }
    }

    /** The "process raw data" part of the gyroscope branch. */
    method IntegrateGyroscope(values: seq<real>, eventTimestamp: int, m: MathLib)
      requires Valid() && |values| >= 3
      modifies `timestamp, `velocity, delta.points, delta`dirty
      ensures Valid() && State() == Integrate(old(State()), values, eventTimestamp, m)
    {
      if timestamp != 0.0 {
        ghost var v := Vec3(values[0], values[1], values[2]);
        var dT := TimeStep(eventTimestamp, timestamp);
        var axisX, axisY, axisZ := values[0], values[1], values[2];
        velocity := Speed(Vec3(axisX, axisY, axisZ), m);
        if velocity > Epsilon {
          axisX := axisX / velocity;
          axisY := axisY / velocity;
          axisZ := axisZ / velocity;
        }
        assert Vec3(axisX, axisY, axisZ) == GyroAxis(v, velocity);
        var thetaOverTwo := HalfAngle(velocity, dT);
        SetDelta(Vec3(axisX, axisY, axisZ), thetaOverTwo, m);
      }
      timestamp := eventTimestamp as real;
    }

    /** The four setter calls on `deltaQuaternion`: (sin(theta/2) axis, cos(theta/2)). */
    method SetDelta(axis: Vec3, thetaOverTwo: real, m: MathLib)
      requires Valid()
      modifies delta.points, delta`dirty
      ensures Valid() && State() == old(State()).(delta := DeltaRotation(axis, thetaOverTwo, m))
    {
      var sinThetaOverTwo := m.sin(thetaOverTwo);
      var cosThetaOverTwo := m.cos(thetaOverTwo);
      delta.SetX(sinThetaOverTwo * axis.x);
      delta.SetY(sinThetaOverTwo * axis.y);
      delta.SetZ(sinThetaOverTwo * axis.z);
      delta.SetW(cosThetaOverTwo);
    }

    /** The "fuse data" part: compose, choose the tier, then the panic check. */
    method FuseGyroscope(m: MathLib)
      requires Valid() && SqrtLaws(m)
      modifies `panicCounter, estimate.points, estimate`dirty, delta.inputCopy
      ensures Valid() && State() == Fuse(old(State()), m)
    {
      ComposeDelta();
      CorrectEstimate(m);
      CheckPanic();
    }

    /** The new position from the gyroscope: `deltaQuaternion.multiplyByQuat(mQuaternion, mQuaternion)`. */
    method ComposeDelta()
      requires Valid()
      modifies estimate.points, estimate`dirty, delta.inputCopy
      ensures Valid() && State() == Compose(old(State()))
    {
      delta.MultiplyByQuatInto(estimate, estimate);
    }

    /** The outlier tiers on |estimate . reference|. */
    method CorrectEstimate(m: MathLib)
      requires Valid() && SqrtLaws(m)
      modifies `panicCounter, estimate.points, estimate`dirty
      ensures Valid() && State() == Correct(old(State()), m)
    {
      var dotProduct := Abs(Dot(estimate.Value(), reference.Value()));
      if dotProduct < OutlierThreshold {
        if dotProduct < OutlierPanicThreshold {
          panicCounter := panicCounter + 1;
        }
      } else {
        panicCounter := 0;
        Interpolate(m);
      }
    }

    /** `slerp` towards the reference into a fresh quaternion with weight velocity * 0.01, then copied back. */
    method Interpolate(m: MathLib)
      requires Valid() && SqrtLaws(m)
      modifies estimate.points, estimate`dirty
      ensures Valid()
      ensures State() == old(State()).(estimate := QuatAlgebra.Slerp(old(estimate.Value()), reference.Value(), velocity * InterpolationWeight, m))
    {
      var interpolate := new Quaternion();
      estimate.Slerp(reference, interpolate, velocity * InterpolationWeight, m);
      estimate.CopyVec4(interpolate);
    }

    /** The panic reset, carried out only while the device is moving slowly. */
    method CheckPanic()
      requires Valid()
      modifies `panicCounter, estimate.points, estimate`dirty
      ensures Valid() && State() == PanicReset(old(State()))
    {
      if panicCounter > PanicThreshold {
        if velocity < PanicSpeedLimit {
          estimate.CopyVec4(reference);
          panicCounter := 0;
        }
      }
    }

    /** "Notify listener": one record of the current estimate, to the writer or to each listener in turn. */
    method Notify(elapsed: int)
      requires Valid() && recorder.recording
      requires recorder.recordingToFile ==> recorder.writer != NoWriter
      modifies recorder`written, recorder`delivered
      ensures var rec := FusionRecord(estimate.Value(), FusedRotationVector2, elapsed);
        && recorder.written == old(recorder.written) + (if recorder.recordingToFile then WriteOutcome(recorder.writer, rec) else [])
        && recorder.delivered == old(recorder.delivered) + (if recorder.recordingToFile then [] else Deliveries(recorder.listeners.value, rec))
    {
      var rec := FusionRecord(estimate.Value(), FusedRotationVector2, elapsed);
      if recorder.recordingToFile {
        recorder.WriteToSDCard(rec);
      } else {
        var ls := recorder.listeners.value;
        for i := 0 to |ls|
          invariant recorder.delivered == old(recorder.delivered) + Deliveries(ls[..i], rec)
          invariant recorder.written == old(recorder.written)
        {
          DeliveriesPrefix(ls, i, rec);
          recorder.Deliver(ls[i], rec);
        }
        assert ls[..|ls|] == ls;
      }
    }
  }
}
