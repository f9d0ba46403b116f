/** The two frame generators behind `/video_feed` and `/camera_feed`, and the
    multipart body part each of them yields per frame.

    A generator is a function of what its loop observes, one `Tick` per
    iteration: the value of the loop condition at that moment (other
    handlers may flip the flags between iterations) and what the read
    returned. Running out of ticks (`Horizon`) means the loop had not
    stopped by itself: either it is still running, or the viewer
    disconnected and closed the generator at its `yield`, in which case
    nothing after the loop runs. */
module Feeds {
  import opened Common
  import opened Detection
  import Server

  /** The boundary line, header and blank line before each payload (`boundary=frame`). */
  const PartHeader: string := "--frame\r\nContent-Type: image/jpeg\r\n\r\n"
  const CrLf: string := "\r\n"

  function HeaderBytes(): (h: Bytes)
    ensures |h| == |PartHeader|
  {
    assert IsAscii(PartHeader);
    AsciiBytes(PartHeader)
  }

  function CrLfBytes(): (t: Bytes)
    ensures |t| == 2
  {
    AsciiBytes(CrLf)
  }

  /** One yielded body part: boundary, content type, blank line, payload, CRLF. */
  function PartRecord(payload: Bytes): Bytes {
    HeaderBytes() + payload + CrLfBytes()
  }

  /** Recover the payload of one body part, if `rec` is shaped like one. */
  function DecodePart(rec: Bytes): Option<Bytes> {
    var h := HeaderBytes();
    if |rec| >= |h| + 2 && rec[..|h|] == h && rec[|rec| - 2..] == CrLfBytes()
    then Some(rec[|h|..|rec| - 2])
    else None
  }

  /** A body part decodes to a payload exactly when it is that payload's part:
      the framing loses nothing and admits nothing else. */
  lemma DecodePartExact(rec: Bytes, payload: Bytes)
    ensures DecodePart(rec) == Some(payload) <==> rec == PartRecord(payload)
  {
    var h := HeaderBytes();
    if rec == PartRecord(payload) {
      assert rec[..|h|] == h;
      assert rec[|rec| - 2..] == CrLfBytes();
      assert rec[|h|..|rec| - 2] == payload;
    }
    if DecodePart(rec) == Some(payload) {
      assert rec == rec[..|h|] + rec[|h|..|rec| - 2] + rec[|rec| - 2..];
    }
  }

  /** Everything the oracles answer for one frame that was read: the frame,
      the detector's boxes, the JPEG encoder's bytes for the annotated frame
      (`None` when `imencode` raises) and the clock. */
  datatype Sample = Sample(frame: Frame, inference: Inference, jpeg: Option<Bytes>, now: Stamp)

  /** `cap.read()`: a failed read (or, for the camera, a `None` frame or a raised read) or a frame. */
  datatype Read = ReadFailed | Got(sample: Sample)

  /** One loop iteration: the loop condition as evaluated, then the read it leads to. */
  datatype Tick = Tick(guard: bool, read: Read)

  datatype Exit = NotStarted | GuardFalse | SourceEnded | EncodeFailed | Horizon

  datatype FeedOut = FeedOut(records: seq<Bytes>, events: seq<PotholeEvent>, exit: Exit)

  /** `cv2.imencode` on the annotated frame; an empty image always raises. */
  function Encode(sm: Sample): (r: Option<Bytes>)
    ensures ZeroDimension(sm.frame) ==> r == None
  {
    if ZeroDimension(sm.frame) then None else sm.jpeg
  }

  /** The events `process_frame` enqueues for one sample: none or one. */
  function FrameEvent(sm: Sample): (e: seq<PotholeEvent>)
    ensures |e| <= 1
  {
    match ProcessFrame(sm.frame, sm.inference, sm.now).event
    case None => []
    case Some(ev) => [ev]
  }

  // ---- reference definitions, independent of the loops ----

  /** Whether the loop goes on past this tick. The camera feed also goes on
      past a zero-dimension frame (`skipsEmpty`); the file feed does not. */
  predicate Continues(t: Tick, skipsEmpty: bool) {
    && t.guard && t.read.Got?
    && (Encode(t.read.sample).Some? || (skipsEmpty && ZeroDimension(t.read.sample.frame)))
  }

  /** How many ticks the loop gets through before it stops. */
  function RunLength(ticks: seq<Tick>, skipsEmpty: bool): (k: nat)
    ensures k <= |ticks|
    ensures forall i :: 0 <= i < k ==> Continues(ticks[i], skipsEmpty)
    ensures k < |ticks| ==> !Continues(ticks[k], skipsEmpty)
    decreases |ticks|
  {
    if ticks == [] || !Continues(ticks[0], skipsEmpty) then 0
    else 1 + RunLength(ticks[1..], skipsEmpty)
  }

  /** Why the loop stops at a tick it does not get past. */
  function StopReason(t: Tick): Exit {
    if !t.guard then GuardFalse
    else if t.read.ReadFailed? then SourceEnded
    else EncodeFailed
  }

  /** The body part a tick yields, if its frame was read and encodes. */
  function Part(t: Tick): (p: seq<Bytes>)
    ensures |p| <= 1
  {
    if t.read.Got? && Encode(t.read.sample).Some? then [PartRecord(Encode(t.read.sample).value)] else []
  }

  /** The events `process_frame` enqueues for a tick, if its frame was read. */
  function TickEvents(t: Tick): seq<PotholeEvent> {
    if t.read.Got? then FrameEvent(t.read.sample) else []
  }

  /** The body parts for the frames among `ticks` that encode, in order. */
  function Parts(ticks: seq<Tick>): seq<Bytes>
    decreases |ticks|
  {
    if ticks == [] then [] else Part(ticks[0]) + Parts(ticks[1..])
  }

  /** The events `process_frame` enqueues for the frames among `ticks`, in order. */
  function EnqueuedEvents(ticks: seq<Tick>): seq<PotholeEvent>
    decreases |ticks|
  {
    if ticks == [] then [] else TickEvents(ticks[0]) + EnqueuedEvents(ticks[1..])
  }

  /** The ticks the loop handled, including a last frame that was processed but failed to encode. */
  function Handled(ticks: seq<Tick>, k: nat, exit: Exit): seq<Tick>
    requires k <= |ticks|
  {
    if exit == EncodeFailed && k < |ticks| then ticks[..k + 1] else ticks[..k]
  }

  /** What a loop run over `ticks` amounts to: the body parts of the ticks it
      got past, the events of every tick it handled, and why it stopped
      (`Horizon` when it got past them all). */
  function Outcome(ticks: seq<Tick>, skipsEmpty: bool): FeedOut {
    var k := RunLength(ticks, skipsEmpty);
    var exit := if k == |ticks| then Horizon else StopReason(ticks[k]);
    FeedOut(Parts(ticks[..k]), EnqueuedEvents(Handled(ticks, k, exit)), exit)
  }

  /** A loop that stops at its first tick yields nothing and enqueues at most
      the events of a frame it processed but could not encode. */
  lemma StopAtFirst(ticks: seq<Tick>, skipsEmpty: bool)
    requires ticks != [] && !Continues(ticks[0], skipsEmpty)
    ensures var exit := StopReason(ticks[0]);
      && Outcome(ticks, skipsEmpty).records == []
      && Outcome(ticks, skipsEmpty).exit == exit
      && Outcome(ticks, skipsEmpty).events == (if exit == EncodeFailed then TickEvents(ticks[0]) else [])
  {
    assert RunLength(ticks, skipsEmpty) == 0;
    assert ticks[..0] == [];
    assert ticks[..1] == [ticks[0]];
    assert EnqueuedEvents([ticks[0]]) == TickEvents(ticks[0]) + EnqueuedEvents([]) by {
      assert [ticks[0]][1..] == [];
    }
  }

  /** Getting past the first tick lengthens the run by one and keeps the reason it stops. */
  lemma RunStep(ticks: seq<Tick>, skipsEmpty: bool)
    requires ticks != [] && Continues(ticks[0], skipsEmpty)
    ensures RunLength(ticks, skipsEmpty) == RunLength(ticks[1..], skipsEmpty) + 1
    ensures Outcome(ticks, skipsEmpty).exit == Outcome(ticks[1..], skipsEmpty).exit
  {
    var k1 := RunLength(ticks[1..], skipsEmpty);
    if k1 < |ticks| - 1 {
      assert ticks[k1 + 1] == ticks[1..][k1];
    }
  }

  /** A loop that gets past its first tick yields that tick's part and events
      ahead of what it does with the rest. */
  lemma LoopStep(ticks: seq<Tick>, skipsEmpty: bool)
    requires ticks != [] && Continues(ticks[0], skipsEmpty)
    ensures var rest := Outcome(ticks[1..], skipsEmpty);
      Outcome(ticks, skipsEmpty)
        == FeedOut(Part(ticks[0]) + rest.records, TickEvents(ticks[0]) + rest.events, rest.exit)
  {
    RunStep(ticks, skipsEmpty);
    var k := RunLength(ticks, skipsEmpty);
    var k1 := k - 1;
    var exit := Outcome(ticks, skipsEmpty).exit;
    assert Parts(ticks[..k]) == Part(ticks[0]) + Parts(ticks[1..][..k1]) by {
      assert ticks[..k][0] == ticks[0] && ticks[..k][1..] == ticks[1..][..k1];
    }
    assert EnqueuedEvents(Handled(ticks, k, exit)) == TickEvents(ticks[0]) + EnqueuedEvents(Handled(ticks[1..], k1, exit)) by {
      var h := Handled(ticks, k, exit);
      assert h[0] == ticks[0] && h[1..] == Handled(ticks[1..], k1, exit);
    }
  }

  /** A skipped frame yields no part and no event. */
  lemma SkippedTick(t: Tick)
    requires t.read.Got? && ZeroDimension(t.read.sample.frame)
    ensures Part(t) == [] && TickEvents(t) == []
  {
  }

  // ---- the loops ----

  /** The `while cap.isOpened() and processing_active` loop of `generate_frames`.
      A zero-dimension frame makes `imencode` raise, which ends the feed. */
  function FileLoop(ticks: seq<Tick>): (r: FeedOut)
    ensures r == Outcome(ticks, false)
    decreases |ticks|
  {
    if ticks == [] then FeedOut([], [], Horizon)
    else if !ticks[0].guard then StopAtFirst(ticks, false); FeedOut([], [], GuardFalse)
    else match ticks[0].read
      case ReadFailed => StopAtFirst(ticks, false); FeedOut([], [], SourceEnded)
      case Got(sm) =>
        match Encode(sm)
        case None =>
          StopAtFirst(ticks, false);
          FeedOut([], FrameEvent(sm), EncodeFailed)
        case Some(payload) =>
          LoopStep(ticks, false);
          var rest := FileLoop(ticks[1..]);
          FeedOut([PartRecord(payload)] + rest.records, FrameEvent(sm) + rest.events, rest.exit)
  }

  /** The ticks a loop gets past without skipping yield one part each, in order. */
  lemma {:induction false} EncodedParts(ts: seq<Tick>)
    requires forall i :: 0 <= i < |ts| ==> Continues(ts[i], false)
    ensures |Parts(ts)| == |ts|
    ensures forall i :: 0 <= i < |ts| ==>
      ts[i].read.Got? && Encode(ts[i].read.sample).Some? && Parts(ts)[i] == PartRecord(Encode(ts[i].read.sample).value)
    decreases |ts|
  {
    if ts != [] {
      assert forall i :: 1 <= i < |ts| ==> ts[1..][i - 1] == ts[i];
      EncodedParts(ts[1..]);
    }
  }

  /** The file feed yields exactly one part per frame it got past, each
      the framed encoding of that frame, and every such frame was read under
      a true loop condition and had both dimensions. */
  lemma FileRecords(ticks: seq<Tick>)
    ensures var r := FileLoop(ticks);
      var k := RunLength(ticks, false);
      && |r.records| == k
      && forall i :: 0 <= i < k ==>
           && ticks[i].guard && ticks[i].read.Got? && !ZeroDimension(ticks[i].read.sample.frame)
           && r.records[i] == PartRecord(Encode(ticks[i].read.sample).value)
  {
    var k := RunLength(ticks, false);
    assert forall i :: 0 <= i < k ==> ticks[..k][i] == ticks[i];
    EncodedParts(ticks[..k]);
  }

  /** The `while camera_active and camera is not None` loop of
      `generate_camera_frames`: a zero-dimension frame is skipped without
      being processed, and a failing encode is caught and ends the loop. */
  function CameraLoop(ticks: seq<Tick>): (r: FeedOut)
    ensures r == Outcome(ticks, true)
    decreases |ticks|
  {
    if ticks == [] then FeedOut([], [], Horizon)
    else if !ticks[0].guard then StopAtFirst(ticks, true); FeedOut([], [], GuardFalse)
    else match ticks[0].read
      case ReadFailed => StopAtFirst(ticks, true); FeedOut([], [], SourceEnded)
      case Got(sm) =>
        if ZeroDimension(sm.frame) then
          LoopStep(ticks, true);
          SkippedTick(ticks[0]);
          CameraLoop(ticks[1..])
        else match Encode(sm)
          case None =>
            StopAtFirst(ticks, true);
            FeedOut([], FrameEvent(sm), EncodeFailed)
          case Some(payload) =>
            LoopStep(ticks, true);
            var rest := CameraLoop(ticks[1..]);
            FeedOut([PartRecord(payload)] + rest.records, FrameEvent(sm) + rest.events, rest.exit)
  }

  /** `generate_frames`: nothing at all when `video_path` is unset or empty or
      names no file; otherwise the file loop. */
  function GenerateFrames(videoPath: Option<string>, fileExists: bool, ticks: seq<Tick>): (r: FeedOut)
    ensures r.exit == NotStarted <==> videoPath.None? || videoPath.value == "" || !fileExists
    ensures r.exit == NotStarted ==> r.records == [] && r.events == []
    ensures r.exit != NotStarted ==> r == FileLoop(ticks)
  {
    if videoPath.None? || videoPath.value == "" || !fileExists then FeedOut([], [], NotStarted)
    else FileLoop(ticks)
  }

  datatype CameraFeed = CameraFeed(out: FeedOut, state: Server.State, effects: seq<Server.Effect>)

  /** `generate_camera_frames` run against the server state `s` its exit
      writes to: once the loop ends the capture is released and `camera`
      cleared; the flags and the video path are not touched. */
  function GenerateCameraFrames(s: Server.State, ticks: seq<Tick>): (r: CameraFeed)
    ensures r.out == CameraLoop(ticks)
    ensures r.out.exit != Horizon ==>
      && r.state == s.(camera := None)
      && r.effects == Server.ReleaseCurrent(s)
    ensures r.out.exit == Horizon ==> r.state == s && r.effects == []
  {
    var out := CameraLoop(ticks);
    if out.exit == Horizon then CameraFeed(out, s, [])
    else CameraFeed(out, s.(camera := None), Server.ReleaseCurrent(s))
  }
}
