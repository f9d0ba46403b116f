/** `process_frame`: validate one frame, ask the detector for boxes, draw them,
    and decide whether the frame yields a pothole event. The detector and the
    drawing calls are foreign; the detector's answer is an input and the
    drawn overlay is recorded as the list of boxes drawn. */
module Detection {
  import opened Common

  /** An image buffer: its two dimensions and whether it has a single channel. */
  datatype Frame = Frame(height: nat, width: nat, grayscale: bool)

  /** One detected box: the class name the model reports and its confidence. */
  datatype Box = Box(className: string, confidence: real)

  /** The detector's answer for one frame: its boxes, or a raised exception. */
  datatype Inference = Boxes(boxes: seq<Box>) | InferenceFailed

  /** `time.time()` as the text the event stream prints for it. */
  type Stamp = string

  /** The `{"timestamp": ...}` dictionary put on the event queue. */
  datatype PotholeEvent = PotholeEvent(timestamp: Stamp)

  /** The frame handed back to the encoder, with the boxes drawn onto it. */
  datatype Annotated = Annotated(frame: Frame, overlays: seq<Box>)

  datatype Processed = Processed(out: Annotated, event: Option<PotholeEvent>)

  const PotholeClass: string := "pothole"
  const ConfidenceThreshold: real := 0.5

  predicate ZeroDimension(f: Frame) {
    f.height == 0 || f.width == 0
  }

  /** A box that raises the pothole alarm. */
  predicate Qualifies(b: Box) {
    Lower(b.className) == PotholeClass && b.confidence > ConfidenceThreshold
  }

  /** The detection loop's flag: starts at `found`, set by any qualifying box, never cleared. */
  function ScanBoxes(boxes: seq<Box>, found: bool): (r: bool)
    ensures r <==> found || exists i :: 0 <= i < |boxes| && Qualifies(boxes[i])
    decreases |boxes|
  {
    if boxes == [] then found
    else
      var r := ScanBoxes(boxes[1..], found || Qualifies(boxes[0]));
      assert forall i :: 1 <= i < |boxes| ==> boxes[i] == boxes[1..][i - 1];
      r
  }

  /** `process_frame(frame)` with the detector's answer and the clock reading as inputs.
      A grayscale frame is converted to colour first (a zero-dimension one cannot
      be, and is returned as it came); a zero-dimension frame or a failing
      detector returns the frame without overlays and without an event. */
  function ProcessFrame(f: Frame, inference: Inference, now: Stamp): (r: Processed)
    // At most one event, and only for a frame with a qualifying box.
    ensures r.event.Some? <==>
      && !ZeroDimension(f) && inference.Boxes?
      && exists i :: 0 <= i < |inference.boxes| && Qualifies(inference.boxes[i])
    ensures r.event.Some? ==> r.event.value == PotholeEvent(now)
    // A zero-dimension frame comes back untouched.
    ensures ZeroDimension(f) ==> r.out == Annotated(f, [])
    // A valid frame comes back in colour with the same dimensions, annotated with every box.
    ensures !ZeroDimension(f) ==>
      && r.out.frame == f.(grayscale := false)
      && r.out.overlays == (if inference.Boxes? then inference.boxes else [])
  {
    if ZeroDimension(f) then Processed(Annotated(f, []), None)
    else
      var color := f.(grayscale := false);
      match inference
      case InferenceFailed => Processed(Annotated(color, []), None)
      case Boxes(boxes) =>
        var detected := ScanBoxes(boxes, false);
        Processed(Annotated(color, boxes), if detected then Some(PotholeEvent(now)) else None)
  }

  /** The label comparison accepts exactly the seven-letter spellings of
      "pothole" in any mix of upper and lower case. */
  lemma PotholeLabelCaseInsensitive(name: string)
    ensures Lower(name) == PotholeClass <==>
      |name| == 7 && forall i :: 0 <= i < 7 ==> name[i] == "pothole"[i] || name[i] == "POTHOLE"[i]
  {
    if Lower(name) == PotholeClass {
      forall i | 0 <= i < 7
        ensures name[i] == "pothole"[i] || name[i] == "POTHOLE"[i]
      {
        assert LowerChar(name[i]) == "pothole"[i];
      }
    }
    if |name| == 7 && forall i :: 0 <= i < 7 ==> name[i] == "pothole"[i] || name[i] == "POTHOLE"[i] {
      assert forall i :: 0 <= i < 7 ==> Lower(name)[i] == PotholeClass[i];
    }
  }

  /** A frame with one pothole box at 0.62 yields one event; at 0.40 it yields none. */
  lemma ConfidenceExamples(f: Frame, now: Stamp)
    requires !ZeroDimension(f)
    ensures ProcessFrame(f, Boxes([Box("pothole", 0.62)]), now).event == Some(PotholeEvent(now))
    ensures ProcessFrame(f, Boxes([Box("pothole", 0.40)]), now).event == None
  {
    assert Qualifies(Box("pothole", 0.62)) by {
      assert Lower("pothole") == PotholeClass;
    }
  }
}
