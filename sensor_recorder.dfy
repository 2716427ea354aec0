/**
 * The recording protocol of `SensorRecorder`: the `recording` and
 * `recordingToFile` flags, the listener list and the writer. What the writer
 * writes and what listeners receive is kept as two ghost traces of the
 * records handed over; the file, its formatting and the listeners' own code
 * are outside the model.
 */
module Recorders {
  import opened Events

  /**
   * The `writer` field: never assigned (null), an open `BufferedWriter`, or
   * one that `stopRecording` has closed.
   */
  datatype WriterState = NoWriter | Open | Closed

  /** What one `writeToSDCard` leaves in the file: the record when the writer is open, nothing once it is closed. */
  function WriteOutcome(w: WriterState, rec: FusionRecord): (r: seq<FusionRecord>)
    ensures |r| <= 1
    ensures r == [rec] <==> w == Open
  {
    if w == Open then [rec] else []
  }

  /** One delivery of `rec` to each listener of `ls`, in list order. */
  function Deliveries(ls: seq<Listener>, rec: FusionRecord): seq<Delivery>
    decreases |ls|
  {
    if ls == [] then [] else Deliveries(ls[..|ls| - 1], rec) + [Delivery(ls[|ls| - 1], rec)]
  }

  /** Every listener receives the record exactly at its own position in the list. */
  lemma {:induction false} DeliveriesInOrder(ls: seq<Listener>, rec: FusionRecord)
    ensures |Deliveries(ls, rec)| == |ls|
    ensures forall k :: 0 <= k < |ls| ==> Deliveries(ls, rec)[k] == Delivery(ls[k], rec)
    decreases |ls|
  {
    if ls != [] {
      var front := ls[..|ls| - 1];
      DeliveriesInOrder(front, rec);
      forall k | 0 <= k < |ls|
        ensures Deliveries(ls, rec)[k] == Delivery(ls[k], rec)
      {
        if k < |ls| - 1 {
          assert front[k] == ls[k];
        }
      }
    }
  }

  /** Delivering to a longer list first delivers to its prefix. */
  lemma DeliveriesPrefix(ls: seq<Listener>, i: nat, rec: FusionRecord)
    requires i < |ls|
    ensures Deliveries(ls[..i + 1], rec) == Deliveries(ls[..i], rec) + [Delivery(ls[i], rec)]
  {
    assert ls[..i + 1][..i] == ls[..i];
  }

  class SensorRecorder {
    /** `listeners`: null (None) until `initialize`. */
    var listeners: Option<seq<Listener>>
    /** `recordingStartDate`, in milliseconds. */
    var recordingStartDate: Option<int>
    var recording: bool
    var recordingToFile: bool
    var writer: WriterState
    /** The records the writer has taken, in order. */
    ghost var written: seq<FusionRecord>
    /** The listener calls made, in order. */
    ghost var delivered: seq<Delivery>

    /** While recording, a start date is known; while recording to listeners, there is a list. */
    ghost predicate Valid()
      reads this
    {
      && (recording ==> recordingStartDate.Some?)
      && (recording && !recordingToFile ==> listeners.Some?)
    }

    /** A fresh recorder: no list, no writer, not recording, nothing handed over. */
    constructor ()
      ensures Valid()
      ensures listeners == None && recordingStartDate == None && writer == NoWriter
      ensures !recording && !recordingToFile && written == [] && delivered == []
    {
      listeners := None;
      recordingStartDate := None;
      recording := false;
      recordingToFile := false;
      writer := NoWriter;
      written := [];
      delivered := [];
    }

    /** `initialize`: a fresh, empty listener list (the sensor manager and the formatter are outside the model). */
    method Initialize()
      requires Valid()
      modifies `listeners
      ensures Valid() && listeners == Some([])
    {
      listeners := Some([]);
    }

    /** `addMotionEventListener`: appended at the end; the earlier listeners keep their order. */
    method AddMotionEventListener(listener: Listener)
      requires Valid() && listeners.Some?
      modifies `listeners
      ensures Valid() && listeners.Some?
      ensures listeners.value == old(listeners.value) + [listener]
      ensures listeners.value[..|old(listeners.value)|] == old(listeners.value)
    {
      listeners := Some(listeners.value + [listener]);
    }

    /**
     * `startRecording(startTime, file)`: recording to the file. `fileOpened` says
     * whether the `FileWriter` could be created; when it could not, the
     * exception is logged and the old writer stays.
     */
    method StartRecordingToFile(startTime: int, fileOpened: bool)
      requires Valid()
      modifies `recordingStartDate, `recording, `recordingToFile, `writer
      ensures Valid() && recording && recordingToFile
      ensures recordingStartDate == Some(startTime)
      ensures writer == if fileOpened then Open else old(writer)
    {
      recordingStartDate := Some(startTime);
      recording := true;
      recordingToFile := true;
      if fileOpened {
        writer := Open;
      }
    }

    /** `startRecording(startTime, listener)`: recording to the listeners, with this one appended. */
    method StartRecordingToListener(startTime: int, listener: Listener)
      requires Valid() && listeners.Some?
      modifies `recordingStartDate, `recording, `recordingToFile, `listeners
      ensures Valid() && recording && !recordingToFile
      ensures recordingStartDate == Some(startTime)
      ensures listeners == Some(old(listeners.value) + [listener])
    {
      recordingStartDate := Some(startTime);
      recording := true;
      listeners := Some(listeners.value + [listener]);
      recordingToFile := false;
    }

    /**
     * `stopRecording`: recording stops; the writer is closed only when
     * recording to the file (a null writer there would throw, so it is
     * required not to be). The mode and the listeners stay as they were.
     */
    method StopRecording()
      requires Valid() && (recordingToFile ==> writer != NoWriter)
      modifies `recording, `writer
      ensures Valid() && !recording
      ensures writer == if old(recordingToFile) then Closed else old(writer)
      ensures recordingToFile == old(recordingToFile) && listeners == old(listeners)
    {
      recording := false;
      if recordingToFile {
        writer := Closed;
      }
    }

    /**
     * `writeToSDCard(FusionEvent)`: the record goes into the file when the
     * writer is open; writing to a closed one throws an `IOException`, which
     * is logged, so nothing is written. A null writer would throw instead.
     */
    method WriteToSDCard(rec: FusionRecord)
      requires writer != NoWriter
      modifies `written
      ensures written == old(written) + WriteOutcome(writer, rec)
    {
      if writer == Open {
        written := written + [rec];
      }
    }

    /** One `listener.onMotionEventUpdate(event)` call, kept on the trace. */
    method Deliver(listener: Listener, rec: FusionRecord)
      modifies `delivered
      ensures delivered == old(delivered) + [Delivery(listener, rec)]
    {
      delivered := delivered + [Delivery(listener, rec)];
    }
  }
}
