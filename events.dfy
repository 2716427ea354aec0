/**
 * The event records the recorders exchange (`MotionEvent`, `ImuEvent`,
 * `FusionEvent` and the `EventType` enumeration). They are plain values with
 * no behaviour of their own.
 */
module Events {
  import opened QuatAlgebra

  datatype Option<T> = None | Some(value: T)

  /** `MotionEvent.EventType`, in declaration order. */
  datatype EventType =
    | Accelerometer
    | Compass
    | Gravity
    | Gyroscope
    | LinearAccelerometer
    | Orientation
    | Picture
    | RotationVector
    | FusedRotationVector1
    | FusedRotationVector2
    | Gps

  /**
   * An `ImuEvent`: its type, its elapsed time in milliseconds, and the two
   * fields of the wrapped Android `SensorEvent` the fusion reads, the sensor
   * values and the timestamp in nanoseconds.
   */
  datatype ImuEvent = ImuEvent(eventType: EventType, elapsedTime: int, values: seq<real>, timestamp: int)

  /**
   * A `FusionEvent` as it is seen when it is handed over: the components of
   * the fused quaternion at that moment, the type and the elapsed time.
   */
  datatype FusionRecord = FusionRecord(fused: Quat, eventType: EventType, elapsedTime: int)

  /** A registered `MotionEventListener`, known only by its identity. */
  datatype Listener = Listener(id: nat)

  /** One call of `onMotionEventUpdate` on a listener. */
  datatype Delivery = Delivery(listener: Listener, record: FusionRecord)
}
