# Motion recorder sensor fusion, modelled in Dafny

This project models three parts of the Android motion recorder.

- **`Quaternion`.** The orientation type of the glass-cube sample. It is a
  4-slot `points` array (x, y, z, w in slots 0..3), a cached 4x4 rotation
  matrix, and a `dirty` flag that says when the cache must be rebuilt.
  - `QuatAlgebra` (`quat_algebra.dfy`) holds its formulas as functions on
    values: the Hamilton product, both matrix writers, the four-branch
    matrix decoder, slerp, slerp2, axis-angle and Euler angles. It also holds
    the lemmas about them.
  - `Representation.Quaternion` (`quaternion.dfy`) is the class itself. Its
    fields are updated in place, and every method is proved against those
    functions.
- **`SensorFusion2Recorder.onMotionEventUpdate`.** The gyroscope /
  rotation-vector fusion.
  - `Fusion` (`fusion.dfy`) describes one event as a step function on the
    recorder's state.
  - `FusionRecorder.SensorFusion2Recorder` (`fusion_recorder.dfy`) is the
    imperative recorder. It keeps three `Quaternion` objects and the scalar
    fields, and it is proved to follow that step function. Each emitted
    fused event is proved to reach the writer or every listener, in list
    order.
- **`SensorRecorder`.** The recording flags, the listener list and the
  writer, in `Recorders.SensorRecorder` (`sensor_recorder.dfy`). What the
  writer takes and what the listeners receive are kept as two ghost traces.

Modelling choices:

- Floats are `real`.
- `sqrt`, `sin`, `cos`, `acos` and the value of pi are fields of a `MathLib`
  value passed as a parameter (`real_math.dfy`).
  - `SqrtLaws` gives `sqrt(x) >= 0` and `sqrt(x)^2 = x` for `x >= 0`.
  - `TrigLaws` gives `sin^2 + cos^2 = 1`, `cos(acos c) = c`,
    `sin(acos c) = sqrt(1 - c^2)`, `sin 0 = 0` and `cos 0 = 1`.
  - `Lawful` combines both.
- The event classes are the datatypes of `events.dfy`.

`Matrixf4x4.java` and `Vector4f.java` are not part of this model. The model
assumes the following about them:

- `dotProduct` is the four-term sum.
- `getMatrix` returns the 16-entry backing array itself.
- `setMatrix` copies a 16-entry array.
- `setX0 .. setW3` store entry (row r, column c) at index 4c + r when the
  matrix is column-major, and at 4r + c when it is row-major.
- A new `Matrixf4x4` is column-major.
- The 3x3 index tables `matIndCol16_3x3` / `matIndRow16_3x3` pick the same
  entries, column-major and row-major respectively (`QuatAlgebra.Indices`).

## Model

| member | source | states |
|---|---|---|
| QuatAlgebra.AddSubInverse | transform-flow-capture-android/src/org/hitlabnz/glassCubeSample/representation/Quaternion.java:155-194 | adding and then subtracting the same quaternion restores the original, and so does subtracting and then adding |
| QuatAlgebra.ScaleMinusOneInvolution | transform-flow-capture-android/src/org/hitlabnz/glassCubeSample/representation/Quaternion.java:142-148 | scaling by -1 is negation, and scaling by -1 twice restores the quaternion |
| QuatAlgebra.IdentityNeutral | transform-flow-capture-android/src/org/hitlabnz/glassCubeSample/representation/Quaternion.java:83-93 | the identity (0,0,0,1) is neutral for the product on both sides and has unit norm |
| QuatAlgebra.InPlaceProductIsWrong | transform-flow-capture-android/src/org/hitlabnz/glassCubeSample/representation/Quaternion.java:85-93 | with output == this the product is written over its own left factor: for i·j the code gives a value that is not the Hamilton product k |
| QuatAlgebra.Normalized | transform-flow-capture-android/src/org/hitlabnz/glassCubeSample/representation/Quaternion.java:47-54 | dividing each component by the magnitude gives a unit quaternion, and a unit quaternion is left unchanged |
| QuatAlgebra.HomogeneousBorder | transform-flow-capture-android/src/org/hitlabnz/glassCubeSample/representation/Quaternion.java:225-288 | both matrix writers fix the last row and column at (0,0,0,1) |
| QuatAlgebra.IdentityGivesIdentityMatrix | transform-flow-capture-android/src/org/hitlabnz/glassCubeSample/representation/Quaternion.java:225-288 | the identity quaternion gives the identity matrix in both layouts |
| QuatAlgebra.MatrixNegationInvariant | transform-flow-capture-android/src/org/hitlabnz/glassCubeSample/representation/Quaternion.java:225-288 | negating all four components leaves every matrix entry unchanged, in both layouts |
| QuatAlgebra.RowMajorIsTranspose | transform-flow-capture-android/src/org/hitlabnz/glassCubeSample/representation/Quaternion.java:225-288 | the row-major writer produces the transpose of the column-major one, and the other way round |
| QuatAlgebra.LayoutsAgreeIff | transform-flow-capture-android/src/org/hitlabnz/glassCubeSample/representation/Quaternion.java:225-288 | the two layouts coincide if and only if w·x = w·y = w·z = 0 |
| QuatAlgebra.Indices | transform-flow-capture-android/src/org/hitlabnz/glassCubeSample/representation/Quaternion.java:370-380 | the assumed 3x3 index tables have nine entries, each inside the matrix: the 16-entry tables the model uses, and the 9-entry ones, which the code selects only for a 9-entry matrix the model never builds |
| QuatAlgebra.EntriesOfWriters | transform-flow-capture-android/src/org/hitlabnz/glassCubeSample/representation/Quaternion.java:382-392 | reading the 3x3 part of either writer's output through its own layout's index table gives the same rotation entries |
| QuatAlgebra.DecodeTraceBranch | transform-flow-capture-android/src/org/hitlabnz/glassCubeSample/representation/Quaternion.java:394-400 | on a positive trace the decoder recovers q up to the sign of w |
| QuatAlgebra.DecodeXBranch | transform-flow-capture-android/src/org/hitlabnz/glassCubeSample/representation/Quaternion.java:401-406 | when m00 is the largest diagonal entry the decoder recovers q up to the sign of x |
| QuatAlgebra.DecodeYBranch | transform-flow-capture-android/src/org/hitlabnz/glassCubeSample/representation/Quaternion.java:407-412 | when m11 beats m22 the decoder recovers q up to the sign of y |
| QuatAlgebra.DecodeZBranch | transform-flow-capture-android/src/org/hitlabnz/glassCubeSample/representation/Quaternion.java:413-419 | in the remaining case the decoder recovers q up to the sign of z |
| QuatAlgebra.BranchRadicandPositive | transform-flow-capture-android/src/org/hitlabnz/glassCubeSample/representation/Quaternion.java:401-418 | for a rotation matrix each non-trace branch takes the square root of a positive number |
| QuatAlgebra.MatrixRoundTrip | transform-flow-capture-android/src/org/hitlabnz/glassCubeSample/representation/Quaternion.java:360-425 | decoding the rotation entries of a unit quaternion q is defined and gives back q or -q |
| QuatAlgebra.ColumnMajorRoundTrip | transform-flow-capture-android/src/org/hitlabnz/glassCubeSample/representation/Quaternion.java:225-252 | setColumnMajor on the output of toMatrixColMajor gives back q or -q |
| QuatAlgebra.RowMajorRoundTrip | transform-flow-capture-android/src/org/hitlabnz/glassCubeSample/representation/Quaternion.java:259-288 | setRowMajor on the output of toMatrixRowMajor gives back q or -q |
| QuatAlgebra.LayoutRoundTrip | transform-flow-capture-android/src/org/hitlabnz/glassCubeSample/representation/Quaternion.java:196-218 | decoding the cached matrix in its own layout gives back q or -q |
| QuatAlgebra.NearSideDot | transform-flow-capture-android/src/org/hitlabnz/glassCubeSample/representation/Quaternion.java:522-532 | after the far end is negated, the cosine slerp uses is the absolute value of the dot product |
| QuatAlgebra.SlerpAtZero | transform-flow-capture-android/src/org/hitlabnz/glassCubeSample/representation/Quaternion.java:518-575 | slerp at t = 0 gives the start quaternion |
| QuatAlgebra.SlerpAtOne | transform-flow-capture-android/src/org/hitlabnz/glassCubeSample/representation/Quaternion.java:518-575 | slerp at t = 1 gives the near-side end, or the start when abs(cos) >= 1 |
| QuatAlgebra.SlerpDoubleCover | transform-flow-capture-android/src/org/hitlabnz/glassCubeSample/representation/Quaternion.java:522-532 | replacing the end by its negation does not change slerp (the dot product must be nonzero) |
| QuatAlgebra.SlerpComponentwise | transform-flow-capture-android/src/org/hitlabnz/glassCubeSample/representation/Quaternion.java:564-571 | for one cosine, each output component depends only on the same component of the two operands |
| QuatAlgebra.Slerp2Equal | transform-flow-capture-android/src/org/hitlabnz/glassCubeSample/representation/Quaternion.java:587-590 | equal operands: the output is a copy and end is untouched |
| QuatAlgebra.Slerp2NegatesEnd | transform-flow-capture-android/src/org/hitlabnz/glassCubeSample/representation/Quaternion.java:594-598 | end is negated in place exactly when the operands differ and their dot product is negative |
| QuatAlgebra.Slerp2LinearWhenClose | transform-flow-capture-android/src/org/hitlabnz/glassCubeSample/representation/Quaternion.java:601-606 | when 1 - abs(cos) <= 0.1 the weights are the linear (1 - alpha, alpha) |
| QuatAlgebra.Slerp2AtZero | transform-flow-capture-android/src/org/hitlabnz/glassCubeSample/representation/Quaternion.java:586-623 | slerp2 at alpha = 0 gives the start quaternion |
| QuatAlgebra.Slerp2AtOne | transform-flow-capture-android/src/org/hitlabnz/glassCubeSample/representation/Quaternion.java:586-623 | slerp2 at alpha = 1 gives end as the call leaves it |
| QuatAlgebra.AxisAngleSource | transform-flow-capture-android/src/org/hitlabnz/glassCubeSample/representation/Quaternion.java:296-297 | the quaternion toAxisAngle reads from has w <= 1; it is normalised only when w > 1 |
| QuatAlgebra.AxisAngleOfDivides | transform-flow-capture-android/src/org/hitlabnz/glassCubeSample/representation/Quaternion.java:303-314 | when s >= 0.001 the axis is (x, y, z) / s; below that threshold it is the raw (x, y, z) |
| QuatAlgebra.AxisAngleAxisIsUnit | transform-flow-capture-android/src/org/hitlabnz/glassCubeSample/representation/Quaternion.java:303-314 | for a unit quaternion with s >= 0.001 the axis has unit length |
| QuatAlgebra.HalfAngleOfScalar | transform-flow-capture-android/src/org/hitlabnz/glassCubeSample/representation/Quaternion.java:298-303 | sin and cos of acos(w) are s and w |
| QuatAlgebra.AxisAngleRoundTrip | transform-flow-capture-android/src/org/hitlabnz/glassCubeSample/representation/Quaternion.java:295-320 | for a unit quaternion with s >= 0.001, setAxisAngle on toAxisAngle's axis and angle (converted to degrees) gives the quaternion back |
| QuatAlgebra.AxisAngleQuatUndivides | transform-flow-capture-android/src/org/hitlabnz/glassCubeSample/representation/Quaternion.java:490-497 | setAxisAngle multiplies back by the s that toAxisAngle divided by |
| QuatAlgebra.AxisAngleQuatIsUnit | transform-flow-capture-android/src/org/hitlabnz/glassCubeSample/representation/Quaternion.java:490-497 | a unit axis gives a unit quaternion for every angle |
| QuatAlgebra.AxisAngleZero | transform-flow-capture-android/src/org/hitlabnz/glassCubeSample/representation/Quaternion.java:490-497 | the zero angle gives the identity, whatever the axis |
| QuatAlgebra.AxisRotations | transform-flow-capture-android/src/org/hitlabnz/glassCubeSample/representation/Quaternion.java:490-497 | about a coordinate axis, setAxisAngle gives sin(h) on that axis and cos(h) as w, with h half the angle in radians |
| QuatAlgebra.EulerIsAxisProduct | transform-flow-capture-android/src/org/hitlabnz/glassCubeSample/representation/Quaternion.java:462-481 | the Euler formula is the product of the heading (y), attitude (z) and bank (x) rotations, in that order |
| QuatAlgebra.EulerSingleAxis | transform-flow-capture-android/src/org/hitlabnz/glassCubeSample/representation/Quaternion.java:464-466 | argument roles: roll alone turns about y, pitch alone about z, azimuth alone about x |
| QuatAlgebra.EulerZero | transform-flow-capture-android/src/org/hitlabnz/glassCubeSample/representation/Quaternion.java:462-481 | all three angles zero give the identity |
| Representation.Quaternion.constructor | transform-flow-capture-android/src/org/hitlabnz/glassCubeSample/representation/Quaternion.java:38-42 | a new quaternion is the identity, dirty, with a column-major matrix and no buffer |
| Representation.Quaternion.LoadIdentityQuat | transform-flow-capture-android/src/org/hitlabnz/glassCubeSample/representation/Quaternion.java:342-348 | the components become (0,0,0,1) and the cache is marked dirty |
| Representation.Quaternion.Normalise | transform-flow-capture-android/src/org/hitlabnz/glassCubeSample/representation/Quaternion.java:47-54 | the components are divided by the magnitude, so the result has unit norm; the cache is marked dirty |
| Representation.Quaternion.Set | transform-flow-capture-android/src/org/hitlabnz/glassCubeSample/representation/Quaternion.java:66-72 | the components are copied from quat, quat is unchanged and the cache is marked dirty |
| Representation.Quaternion.CopyVec4 | transform-flow-capture-android/src/org/hitlabnz/glassCubeSample/representation/Quaternion.java:648-652 | the components are copied from vec, vec is unchanged and the cache is marked dirty |
| Representation.Quaternion.SetXYZW | transform-flow-capture-android/src/org/hitlabnz/glassCubeSample/representation/Quaternion.java:748-752 | the components become (x, y, z, w) and the cache is marked dirty |
| Representation.Quaternion.SetX | transform-flow-capture-android/src/org/hitlabnz/glassCubeSample/representation/Quaternion.java:716-720 | only x changes, and the cache is marked dirty |
| Representation.Quaternion.SetY | transform-flow-capture-android/src/org/hitlabnz/glassCubeSample/representation/Quaternion.java:724-728 | only y changes, and the cache is marked dirty |
| Representation.Quaternion.SetZ | transform-flow-capture-android/src/org/hitlabnz/glassCubeSample/representation/Quaternion.java:732-736 | only z changes, and the cache is marked dirty |
| Representation.Quaternion.SetW | transform-flow-capture-android/src/org/hitlabnz/glassCubeSample/representation/Quaternion.java:740-744 | only w changes, and the cache is marked dirty |
| Representation.Quaternion.MultiplyByScalar | transform-flow-capture-android/src/org/hitlabnz/glassCubeSample/representation/Quaternion.java:142-148 | every component is multiplied by the scalar; the cache is marked dirty |
| Representation.Quaternion.AddQuatInto | transform-flow-capture-android/src/org/hitlabnz/glassCubeSample/representation/Quaternion.java:166-171 | output receives this + input component-wise and is marked dirty (through its setters); this and input are unchanged unless they are output |
| Representation.Quaternion.AddQuat | transform-flow-capture-android/src/org/hitlabnz/glassCubeSample/representation/Quaternion.java:155-158 | this becomes this + input, and input is unchanged |
| Representation.Quaternion.SubQuatInto | transform-flow-capture-android/src/org/hitlabnz/glassCubeSample/representation/Quaternion.java:189-194 | output receives this - input component-wise and is marked dirty; this and input are unchanged unless they are output |
| Representation.Quaternion.SubQuat | transform-flow-capture-android/src/org/hitlabnz/glassCubeSample/representation/Quaternion.java:178-181 | this becomes this - input, and input is unchanged |
| Representation.Quaternion.MultiplyByQuatInto | transform-flow-capture-android/src/org/hitlabnz/glassCubeSample/representation/Quaternion.java:83-111 | output receives the Hamilton product this·input, also when output == input (through inputCopy); when output == this it receives the product overwritten mid-computation; output is marked dirty |
| Representation.Quaternion.MultiplyByQuat | transform-flow-capture-android/src/org/hitlabnz/glassCubeSample/representation/Quaternion.java:119-127 | this becomes this·input through the lazily created buffer, also when input == this; input is unchanged and the buffer is reused once it exists |
| Representation.Quaternion.EnsureBuffer | transform-flow-capture-android/src/org/hitlabnz/glassCubeSample/representation/Quaternion.java:122-123 | the buffer is created once, as a fresh quaternion, and kept afterwards |
| Representation.Quaternion.ConvertQuatToMatrix | transform-flow-capture-android/src/org/hitlabnz/glassCubeSample/representation/Quaternion.java:196-218 | the cached matrix becomes the rotation matrix of the components, in the matrix's layout |
| Representation.Quaternion.ToMatrixColMajor | transform-flow-capture-android/src/org/hitlabnz/glassCubeSample/representation/Quaternion.java:225-252 | the cached array becomes the column-major matrix and is returned; the dirty flag is left alone, so a clean cache stays coherent only if it is column-major or both layouts agree |
| Representation.Quaternion.ToMatrixRowMajor | transform-flow-capture-android/src/org/hitlabnz/glassCubeSample/representation/Quaternion.java:259-288 | the cached array becomes the row-major matrix and is returned; a clean column-major cache stays coherent only when w·x = w·y = w·z = 0 |
| Representation.Quaternion.GetMatrix4x4 | transform-flow-capture-android/src/org/hitlabnz/glassCubeSample/representation/Quaternion.java:500-507 | the matrix is recomputed only when dirty, the flag is then cleared, and the returned matrix always matches the current components |
| Representation.Quaternion.GenerateQuaternionFromMatrix | transform-flow-capture-android/src/org/hitlabnz/glassCubeSample/representation/Quaternion.java:360-425 | the components become the four-branch decoding of the matrix's 3x3 part, read through its layout's index table |
| Representation.Quaternion.SetFromMatrix | transform-flow-capture-android/src/org/hitlabnz/glassCubeSample/representation/Quaternion.java:433-453 | the caller's array is copied into the matrix, the layout is set, and the components are decoded from it |
| Representation.Quaternion.SetColumnMajor | transform-flow-capture-android/src/org/hitlabnz/glassCubeSample/representation/Quaternion.java:433-439 | the components are decoded from a column-major array, and the matrix is then column-major |
| Representation.Quaternion.SetRowMajor | transform-flow-capture-android/src/org/hitlabnz/glassCubeSample/representation/Quaternion.java:447-453 | the components are decoded from a row-major array, and the matrix is then row-major |
| Representation.Quaternion.SetAxisAngle | transform-flow-capture-android/src/org/hitlabnz/glassCubeSample/representation/Quaternion.java:490-498 | the components become (sin(r/2)·axis, cos(r/2)), with the angle converted from degrees; the cache is marked dirty |
| Representation.Quaternion.SetEulerAngle | transform-flow-capture-android/src/org/hitlabnz/glassCubeSample/representation/Quaternion.java:462-482 | the components become the Euler quaternion with heading from roll, attitude from pitch and bank from azimuth; the cache is marked dirty |
| Representation.Quaternion.ToAxisAngle | transform-flow-capture-android/src/org/hitlabnz/glassCubeSample/representation/Quaternion.java:295-320 | this is normalised (and marked dirty) only when w > 1; output holds the axis, divided by s only when s >= 0.001, and the angle 2·acos(w) |
| Representation.Quaternion.Slerp | transform-flow-capture-android/src/org/hitlabnz/glassCubeSample/representation/Quaternion.java:518-575 | output receives slerp(this, input, t); a negative dot product negates a fresh copy, so neither this nor input changes; output is marked dirty |
| Representation.Quaternion.Equals | transform-flow-capture-android/src/org/hitlabnz/glassCubeSample/representation/Quaternion.java:629-640 | true exactly when the four components are equal |
| Representation.Quaternion.Slerp2 | transform-flow-capture-android/src/org/hitlabnz/glassCubeSample/representation/Quaternion.java:586-623 | output receives slerp2's interpolation; end is left negated in place, and marked dirty, exactly when the values differ and their dot product is negative; otherwise end keeps its value and dirty flag, and a coherent cache of end stays coherent |
| Fusion.RotationScalarCases | transform-flow-capture-android/src/org/hitlabnz/motionrecorder/recorders/SensorFusion2Recorder.java:162-170 | w is v3 when there are four values; otherwise w >= 0 and w² = max(1 - v0² - v1² - v2², 0) |
| Fusion.RotationQuatIsUnit | transform-flow-capture-android/src/org/hitlabnz/motionrecorder/recorders/SensorFusion2Recorder.java:162-172 | a reading without a fourth value whose vector part has length at most 1 becomes a unit quaternion |
| Fusion.GyroAxisIsUnit | transform-flow-capture-android/src/org/hitlabnz/motionrecorder/recorders/SensorFusion2Recorder.java:192-202 | above EPSILON the divided gyroscope axis has unit length |
| Fusion.DeltaRotationIsUnit | transform-flow-capture-android/src/org/hitlabnz/motionrecorder/recorders/SensorFusion2Recorder.java:208-214 | with a unit axis, the delta (sin(θ/2)·axis, cos(θ/2)) is a unit quaternion |
| Fusion.StepEmission | transform-flow-capture-android/src/org/hitlabnz/motionrecorder/recorders/SensorFusion2Recorder.java:154-279 | an event is emitted exactly when recording, gyroscope and initialised; while not recording, and for any other event type, nothing changes |
| Fusion.RotationVectorStep | transform-flow-capture-android/src/org/hitlabnz/motionrecorder/recorders/SensorFusion2Recorder.java:160-176 | a rotation-vector event sets the reference to (v0, v1, v2, w) and never emits; only the first one also sets the estimate and init |
| Fusion.StepKeepsInit | transform-flow-capture-android/src/org/hitlabnz/motionrecorder/recorders/SensorFusion2Recorder.java:173-176 | init never returns to false |
| Fusion.GyroscopeIntegration | transform-flow-capture-android/src/org/hitlabnz/motionrecorder/recorders/SensorFusion2Recorder.java:184-216 | a gyroscope event always takes the event's timestamp; speed and delta are recomputed exactly when the previous timestamp is nonzero, with the axis divided only above EPSILON and θ/2 = speed·dT/2 |
| Fusion.GyroscopeBeforeInit | transform-flow-capture-android/src/org/hitlabnz/motionrecorder/recorders/SensorFusion2Recorder.java:219 | before init a gyroscope event leaves the estimate and the counter alone and emits nothing |
| Fusion.GyroscopeTiers | transform-flow-capture-android/src/org/hitlabnz/motionrecorder/recorders/SensorFusion2Recorder.java:222-259 | after init: the estimate becomes delta·estimate, not renormalised; d >= 0.85 clears the counter and slerps with the unclamped weight velocity·0.01; d < 0.6 counts; a counter above 60 resets to the reference only below speed 3 |
| Fusion.CounterSteps | transform-flow-capture-android/src/org/hitlabnz/motionrecorder/recorders/SensorFusion2Recorder.java:227-259 | each event adds one to the counter, resets it or leaves it, so it is never negative |
| Fusion.PanicNeedsHistory | transform-flow-capture-android/src/org/hitlabnz/motionrecorder/recorders/SensorFusion2Recorder.java:245-259 | a counter below 60 cannot trigger a panic reset in one step |
| Fusion.RunAfterInit | transform-flow-capture-android/src/org/hitlabnz/motionrecorder/recorders/SensorFusion2Recorder.java:154-279 | over any event sequence after init, exactly one fused event goes out per gyroscope event, and init stays set |
| Fusion.RunCounterNonNegative | transform-flow-capture-android/src/org/hitlabnz/motionrecorder/recorders/SensorFusion2Recorder.java:227-259 | the panic counter stays non-negative over any event sequence |
| Fusion.RunNotRecording | transform-flow-capture-android/src/org/hitlabnz/motionrecorder/recorders/SensorFusion2Recorder.java:155-156 | while not recording, any event sequence changes nothing and emits nothing |
| Fusion.RunBeforeRotation | transform-flow-capture-android/src/org/hitlabnz/motionrecorder/recorders/SensorFusion2Recorder.java:154-219 | before the first rotation-vector event, any run of other events emits nothing, keeps init false and keeps the estimate and the counter |
| Fusion.StationaryStep | transform-flow-capture-android/src/org/hitlabnz/motionrecorder/recorders/SensorFusion2Recorder.java:184-259 | after init, with a unit estimate on the reference and an identity delta, a zero gyroscope reading emits the same estimate, keeps the delta the identity and clears the counter |
| Fusion.RunStationary | transform-flow-capture-android/src/org/hitlabnz/motionrecorder/recorders/SensorFusion2Recorder.java:184-259 | stationary stability: in that situation any run of zero gyroscope readings leaves the estimate unchanged, and every emitted estimate is that estimate, one per reading |
| Fusion.StillStep | transform-flow-capture-android/src/org/hitlabnz/motionrecorder/recorders/SensorFusion2Recorder.java:184-259 | after init, a gyroscope event at the previous timestamp and below speed 3, at agreement below 0.6, adds one to the counter and keeps the estimate; once the counter passes 60 the estimate becomes the reference and the counter is cleared |
| Fusion.RunStill | transform-flow-capture-android/src/org/hitlabnz/motionrecorder/recorders/SensorFusion2Recorder.java:184-259 | a run of such events that keeps the counter at most 60 keeps the estimate and adds the number of events to the counter |
| Fusion.RunPanicReset | transform-flow-capture-android/src/org/hitlabnz/motionrecorder/recorders/SensorFusion2Recorder.java:227-259 | the panic scenario: such events that take the counter to 61 (61 of them from a cleared counter) end with the estimate equal to the reference and the counter cleared |
| FusionRecorder.SensorFusion2Recorder.constructor | transform-flow-capture-android/src/org/hitlabnz/motionrecorder/recorders/SensorFusion2Recorder.java:28-83 | a new recorder is in the initial fusion state, is not recording and has handed nothing over |
| FusionRecorder.SensorFusion2Recorder.OnMotionEventUpdate | transform-flow-capture-android/src/org/hitlabnz/motionrecorder/recorders/SensorFusion2Recorder.java:154-279 | the fields end in the state Fusion.Step gives; if an event is emitted, the new estimate goes to the open writer or to each listener in list order |
| FusionRecorder.SensorFusion2Recorder.OnRotationVectorEvent | transform-flow-capture-android/src/org/hitlabnz/motionrecorder/recorders/SensorFusion2Recorder.java:160-176 | the quaternion objects take the rotation-vector step |
| FusionRecorder.SensorFusion2Recorder.OnGyroscopeEvent | transform-flow-capture-android/src/org/hitlabnz/motionrecorder/recorders/SensorFusion2Recorder.java:178-277 | integrates, then (once initialised) fuses and notifies |
| FusionRecorder.SensorFusion2Recorder.IntegrateGyroscope | transform-flow-capture-android/src/org/hitlabnz/motionrecorder/recorders/SensorFusion2Recorder.java:184-216 | the fields take Fusion.Integrate's values |
| FusionRecorder.SensorFusion2Recorder.SetDelta | transform-flow-capture-android/src/org/hitlabnz/motionrecorder/recorders/SensorFusion2Recorder.java:209-214 | deltaQuaternion becomes (sin(θ/2)·axis, cos(θ/2)); nothing else changes |
| FusionRecorder.SensorFusion2Recorder.FuseGyroscope | transform-flow-capture-android/src/org/hitlabnz/motionrecorder/recorders/SensorFusion2Recorder.java:219-259 | the fields take Fusion.Fuse's values |
| FusionRecorder.SensorFusion2Recorder.ComposeDelta | transform-flow-capture-android/src/org/hitlabnz/motionrecorder/recorders/SensorFusion2Recorder.java:222 | mQuaternion becomes delta·mQuaternion through the copy branch of multiplyByQuat |
| FusionRecorder.SensorFusion2Recorder.CorrectEstimate | transform-flow-capture-android/src/org/hitlabnz/motionrecorder/recorders/SensorFusion2Recorder.java:225-243 | the fields take the tier chosen by abs(estimate·reference) |
| FusionRecorder.SensorFusion2Recorder.Interpolate | transform-flow-capture-android/src/org/hitlabnz/motionrecorder/recorders/SensorFusion2Recorder.java:237-242 | mQuaternion becomes slerp(mQuaternion, reference, velocity·0.01) through a fresh quaternion |
| FusionRecorder.SensorFusion2Recorder.CheckPanic | transform-flow-capture-android/src/org/hitlabnz/motionrecorder/recorders/SensorFusion2Recorder.java:245-259 | the panic reset happens exactly when the counter is above 60 and the speed below 3 |
| FusionRecorder.SensorFusion2Recorder.Notify | transform-flow-capture-android/src/org/hitlabnz/motionrecorder/recorders/SensorFusion2Recorder.java:268-276 | one record goes to the writer when recording to file; otherwise the loop hands one record to each listener in list order |
| Recorders.DeliveriesInOrder | transform-flow-capture-android/src/org/hitlabnz/motionrecorder/recorders/SensorFusion2Recorder.java:272-275 | one delivery per listener, and the k-th delivery goes to the k-th listener |
| Recorders.SensorRecorder.constructor | transform-flow-capture-android/src/org/hitlabnz/motionrecorder/recorders/SensorRecorder.java:32-62 | a new recorder has no list, no writer and no start date, is not recording and has handed nothing over |
| Recorders.SensorRecorder.Initialize | transform-flow-capture-android/src/org/hitlabnz/motionrecorder/recorders/SensorRecorder.java:69-73 | the listener list becomes a fresh empty list |
| Recorders.SensorRecorder.AddMotionEventListener | transform-flow-capture-android/src/org/hitlabnz/motionrecorder/recorders/SensorRecorder.java:75-77 | the listener is appended at the end, and the earlier listeners keep their order |
| Recorders.SensorRecorder.StartRecordingToFile | transform-flow-capture-android/src/org/hitlabnz/motionrecorder/recorders/SensorRecorder.java:85-96 | recording and recordingToFile become true and the start date is stored; the writer is open if the file could be opened, and unchanged otherwise |
| Recorders.SensorRecorder.StartRecordingToListener | transform-flow-capture-android/src/org/hitlabnz/motionrecorder/recorders/SensorRecorder.java:103-108 | recording becomes true, recordingToFile false, the start date is stored and the listener is appended |
| Recorders.SensorRecorder.StopRecording | transform-flow-capture-android/src/org/hitlabnz/motionrecorder/recorders/SensorRecorder.java:113-123 | recording becomes false; the writer is closed only when recording to file; recordingToFile and listeners are unchanged |
| Recorders.SensorRecorder.WriteToSDCard | transform-flow-capture-android/src/org/hitlabnz/motionrecorder/recorders/SensorRecorder.java:143-155 | the record reaches the file when the writer is open; a write to a closed writer fails, and the failure is only logged |
| Recorders.SensorRecorder.Deliver | transform-flow-capture-android/src/org/hitlabnz/motionrecorder/recorders/SensorFusion2Recorder.java:273-274 | one listener call, appended to the delivery trace |

## Left out

- Floating point: rounding, NaN and infinities, the float casts, and the precision lost when the `long` event timestamp is stored in the `float` field `timestamp`. Components, angles and timestamps are reals.
- `Math.sqrt`, `sin`, `cos`, `acos` and `toRadians`/`toDegrees`: they enter as the fields of a `MathLib` parameter, with only the laws listed above.
- `getOrientationValues`: it calls `SensorManager.getOrientation`, which is not available here.
- `toEulerAngles`: it needs `atan2` and `asin`, which have no laws in the model. For `setEulerAngle` only the formula and the roles of its arguments are modelled.
- `toString`, and the overrides `add`, `subtract`, `subdivide` and `copyFromV3f`: these live in `Vector4f` and the fusion does not use them.
- The 9-entry matrix and its index tables: `Matrixf4x4` is not part of this model, and the model assumes its matrix always has 16 entries.
- Representation.Quaternion.Normalise: requires a nonzero norm; the Java division by a zero magnitude gives NaN.
- Representation.Quaternion.GenerateQuaternionFromMatrix: requires that the chosen branch's radicand is positive (`Decodable`). Other matrices make `S` zero or NaN.
- Representation.Quaternion.SetFromMatrix, Representation.Quaternion.SetColumnMajor and Representation.Quaternion.SetRowMajor: the same `Decodable` requirement applies. `setMatrix` is modelled as a copy of a 16-entry array.
- Representation.Quaternion.MultiplyByQuat: requires that input is not this quaternion's own buffer and shares no array with it. In that case the Java code overwrites input before reading it.
- Representation.Quaternion.ToAxisAngle: when output is this quaternion's own `points` array, the dirty flag is not set, so the cache may go stale. The contract then states only the output and not coherence.
- Representation.Quaternion.ToAxisAngle: the angle in output[3] is in radians, as the code computes it. Only its round trip through `setAxisAngle` converts it to degrees.
- Representation.Quaternion.Equals: only a `Quaternion` argument is modelled. A non-quaternion argument returns false in Java.
- Fusion.CounterSteps: `panicCounter` is an unbounded integer. The 32-bit wrap-around after 2^31 increments is not modelled.
- Fusion.Step, FusionRecorder.SensorFusion2Recorder.OnMotionEventUpdate, FusionRecorder.SensorFusion2Recorder.OnRotationVectorEvent, FusionRecorder.SensorFusion2Recorder.OnGyroscopeEvent and the `Fusion.Run` lemmas require that a rotation-vector or gyroscope event carries at least three values (`WellFormed`, or `|values| >= 3` for the two handlers). On a shorter array the Java code (`SensorFusion2Recorder.java`, lines 167-172 and 187-189) throws `ArrayIndexOutOfBoundsException`.
- Non-IMU events: each event is an `ImuEvent`. A rotation-vector or gyroscope event of another class would throw `ClassCastException` in Java.
- Listeners are identities only: what a listener does is outside the model. A listener that registers listeners or calls back into the recorder during delivery is not modelled.
- `FusionEvent` holds the live `mQuaternion` object, not a copy. The traces record the components at the moment of the call as a snapshot, so later changes to `mQuaternion` are not reflected in earlier records.
- `elapsedTimeSinceStart()` reads the clock. It enters as one `elapsed` parameter per event, so every listener of one event receives the same value, whereas Java reads the clock once per listener.
- `startRecording(Date, File)` opening the file: whether the `FileWriter` could be created enters as a parameter. Its error is only logged.
- A null writer (`stopRecording` or a write while recording to file with no writer ever opened) would throw `NullPointerException`. The model requires a writer instead.
- Using the listener list before `initialize` (a null list) would throw. The model requires it to exist.
- The file name and its formatting, `String.format`, `Log`, `SensorManager`, `Context` and `SimpleDateFormat` are left out.
- The `SensorFusion2Recorder` overrides `initialize`, `startRecording`, `stopRecording` and `close` only delegate or do nothing. Apart from building the file name they are the `SensorRecorder` methods themselves.
- `writeToSDCard(SensorEvent)` and the elapsed-time formatting of other recorders: the fusion recorder does not use them.
- The thin sensor recorders, GPS, camera and the user interface: they only forward platform events or do I/O.
