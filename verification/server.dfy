/** The Flask server's process-wide globals (`video_path`, `camera`,
    `processing_active`, `camera_active`) and the four request handlers that
    change them, as pure transitions over one immutable state record.

    OpenCV's `VideoCapture` and `file.save` become oracle inputs: whether each
    backend opened, whether the probe read succeeded, whether the save
    succeeded. Every handler also reports the device and file operations it
    performed, in order, so that "release before open" can be stated. */
module Server {
  import opened Common

  const UploadFolder: string := "uploads"

  /** A character `secure_filename` keeps: an ASCII letter or digit, `_`, `.` or `-`. */
  predicate SafeChar(c: char) {
    ('a' <= c <= 'z') || ('A' <= c <= 'Z') || ('0' <= c <= '9') || c == '_' || c == '.' || c == '-'
  }

  /** What Werkzeug's `secure_filename` promises of its result on a POSIX
      host: only safe characters, and no `.` or `_` at either end. */
  predicate SecureName(n: string) {
    && (forall i :: 0 <= i < |n| ==> SafeChar(n[i]))
    && (n != [] ==> n[0] != '.' && n[0] != '_' && n[|n| - 1] != '.' && n[|n| - 1] != '_')
  }

  /** `os.path.join(UploadFolder, name)` on POSIX: an absolute second part
      replaces the folder; otherwise the two are joined with one `/`. */
  function UploadPath(name: string): (p: string)
    ensures |name| > 0 && name[0] == '/' ==> p == name
    ensures (|name| == 0 || name[0] != '/') ==>
      && |p| == |UploadFolder| + 1 + |name|
      && p[..|UploadFolder| + 1] == UploadFolder + "/"
      && p[|UploadFolder| + 1..] == name
    // A non-empty sanitized name is one path component directly inside the
    // upload folder, and never `.` or `..`; an empty one names the folder.
    ensures SecureName(name) && name != "" ==>
      && |p| > |UploadFolder| + 1
      && p[..|UploadFolder| + 1] == UploadFolder + "/"
      && '/' !in p[|UploadFolder| + 1..]
      && p[|UploadFolder| + 1..] != "."
      && p[|UploadFolder| + 1..] != ".."
  {
    if |name| > 0 && name[0] == '/' then name else UploadFolder + "/" + name
  }

  /** The two capture backends tried in order: DirectShow, then OpenCV's default. */
  datatype Backend = DirectShow | DefaultBackend

  /** A `cv2.VideoCapture` object held in the `camera` global; `isOpen` is `isOpened()`. */
  datatype Capture = Capture(backend: Backend, isOpen: bool)

  datatype State = State(
    videoPath: Option<string>,
    camera: Option<Capture>,
    processingActive: bool,
    cameraActive: bool)

  /** The globals at import time. */
  const Init: State := State(None, None, false, false)

  /** An operation on the camera device or the upload folder. */
  datatype Effect =
    | Release(capture: Capture)
    | Open(backend: Backend)
    | ReadProbe
    | Save(path: string)

  datatype Failure = NoFilePart | NoSelectedFile | SaveFailed | CameraOpenFailed | ProbeFailed

  /** The success/failure tag of a handler's reply; the JSON body and status code are left out. */
  datatype Reply = Ok | Error(failure: Failure)

  datatype Step = Step(state: State, reply: Reply, effects: seq<Effect>)

  /** What `request.files` holds: no `file` part, or one with a client-side file name. */
  datatype UploadForm = NoFile | File(filename: string)

  /** The camera's answers during `start_camera`. */
  datatype CameraProbe = CameraProbe(directShowOpens: bool, defaultOpens: bool, probeReads: bool)

  /** True when the camera global holds a capture that owns the device. */
  predicate HoldsDevice(s: State) {
    s.camera.Some? && s.camera.value.isOpen
  }

  function ReleaseCurrent(s: State): (e: seq<Effect>)
    ensures |e| <= 1
    ensures forall i :: 0 <= i < |e| ==> e[i].Release?
  {
    if s.camera.Some? then [Release(s.camera.value)] else []
  }

  /** `stop_camera`: release whatever capture is held and clear `camera_active`. */
  function StopCamera(s: State): (r: Step)
    ensures r.reply == Ok
    ensures r.state.camera == None && !r.state.cameraActive
    ensures r.state.videoPath == s.videoPath && r.state.processingActive == s.processingActive
    ensures r.effects == ReleaseCurrent(s)
    ensures !HoldsDevice(r.state)
  {
    Step(s.(camera := None, cameraActive := false), Ok, ReleaseCurrent(s))
  }

  /** `abort_processing`: clears both flags and nothing else; the camera is NOT released. */
  function AbortProcessing(s: State): (r: Step)
    ensures r.reply == Ok && r.effects == []
    ensures !r.state.processingActive && !r.state.cameraActive
    ensures r.state.camera == s.camera && r.state.videoPath == s.videoPath
    ensures HoldsDevice(r.state) == HoldsDevice(s)
  {
    Step(s.(processingActive := false, cameraActive := false), Ok, [])
  }

  /** `upload_file`. `safeName` is what `secure_filename` makes of the client's
      file name and `saved` whether `file.save` returned normally; when it
      raises, Flask answers with an error but the earlier assignments stay. */
  function UploadFile(s: State, form: UploadForm, safeName: string, saved: bool): (r: Step)
    // A missing file part or an empty file name is rejected before any state changes.
    ensures (form.NoFile? || form.filename == "") ==> r.state == s && r.effects == [] && r.reply.Error?
    ensures form.NoFile? ==> r.reply == Error(NoFilePart)
    ensures form.File? && form.filename == "" ==> r.reply == Error(NoSelectedFile)
    // Otherwise the file is saved at the joined path, which becomes the video source.
    ensures form.File? && form.filename != "" ==>
      && r.state.videoPath == Some(UploadPath(safeName))
      && r.effects == (if s.cameraActive then ReleaseCurrent(s) else []) + [Save(UploadPath(safeName))]
      && (r.reply == Ok <==> saved)
      && r.state.processingActive == (saved || s.processingActive)
    // A running camera is stopped first; an idle one is left alone.
    ensures form.File? && form.filename != "" && s.cameraActive ==>
      r.state.camera == None && !r.state.cameraActive
    ensures form.File? && form.filename != "" && !s.cameraActive ==>
      r.state.camera == s.camera && !r.state.cameraActive
  {
    if form.NoFile? then Step(s, Error(NoFilePart), [])
    else if form.filename == "" then Step(s, Error(NoSelectedFile), [])
    else
      var stopped := if s.cameraActive then StopCamera(s) else Step(s, Ok, []);
      var path := UploadPath(safeName);
      var s1 := stopped.state.(videoPath := Some(path));
      var effects := stopped.effects + [Save(path)];
      if saved then Step(s1.(processingActive := true), Ok, effects)
      else Step(s1, Error(SaveFailed), effects)
  }

  /** The capture `start_camera` ends up holding: DirectShow, or the default backend when DirectShow did not open. */
  function Acquire(p: CameraProbe): (c: Capture)
    ensures c.isOpen <==> p.directShowOpens || p.defaultOpens
  {
    if p.directShowOpens then Capture(DirectShow, true) else Capture(DefaultBackend, p.defaultOpens)
  }

  function OpenAttempts(p: CameraProbe): (e: seq<Effect>)
    ensures 1 <= |e| <= 2 && e[0] == Open(DirectShow)
    ensures forall i :: 0 <= i < |e| ==> e[i].Open?
  {
    if p.directShowOpens then [Open(DirectShow)] else [Open(DirectShow), Open(DefaultBackend)]
  }

  /** An effect log made of releases, then open attempts, then the probe
      steps (none, a read, or a read and a release): reads and releases past
      the first part come from the probe steps alone. */
  lemma ProbeLogShape(pre: seq<Effect>, opens: seq<Effect>, probe: seq<Effect>)
    requires forall i :: 0 <= i < |pre| ==> pre[i].Release?
    requires |opens| >= 1 && forall i :: 0 <= i < |opens| ==> opens[i].Open?
    requires probe == [] || probe == [ReadProbe] || (|probe| == 2 && probe[0] == ReadProbe && probe[1].Release?)
    ensures var e := pre + opens + probe;
      && (ReadProbe in e <==> probe != [])
      && (forall i :: |pre| <= i < |e| - 1 ==> !e[i].Release?)
      && (e[|e| - 1].Release? <==> |probe| == 2)
      && (probe == [ReadProbe] ==> e[|e| - 1] == ReadProbe)
  {
    var e := pre + opens + probe;
    forall k | 0 <= k < |pre| + |opens|
      ensures e[k] != ReadProbe
    {
      if k < |pre| {
        assert e[k] == pre[k];
      } else {
        assert e[k] == opens[k - |pre|];
      }
    }
    if probe != [] {
      assert e[|pre| + |opens|] == ReadProbe;
    }
    forall i | |pre| <= i < |e| - 1
      ensures !e[i].Release?
    {
      if i < |pre| + |opens| {
        assert e[i] == opens[i - |pre|];
      } else {
        assert e[i] == probe[i - |pre| - |opens|];
      }
    }
  }

  /** `start_camera`. The failed-open branch returns early without touching
      `camera_active` and leaves the unopened capture in `camera`; the
      failed-probe branch releases the capture but also leaves `camera_active`. */
  function StartCamera(s: State, p: CameraProbe): (r: Step)
    // File processing is always switched off, whatever happens to the camera.
    ensures !r.state.processingActive && r.state.videoPath == None
    // The previous capture is released before any backend is opened.
    ensures |r.effects| > |ReleaseCurrent(s)|
    ensures r.effects[..|ReleaseCurrent(s)|] == ReleaseCurrent(s)
    ensures r.effects[|ReleaseCurrent(s)|] == Open(DirectShow)
    // The default backend is tried exactly when DirectShow did not open.
    ensures Open(DefaultBackend) in r.effects <==> !p.directShowOpens
    // Success exactly when some backend opened and the probe frame was read.
    ensures r.reply == Ok <==> (p.directShowOpens || p.defaultOpens) && p.probeReads
    ensures r.reply == Ok ==> r.state.cameraActive && r.state.camera == Some(Acquire(p)) && HoldsDevice(r.state)
    ensures r.state.cameraActive == (s.cameraActive || r.reply == Ok)
    ensures !(p.directShowOpens || p.defaultOpens) ==>
      r.reply == Error(CameraOpenFailed) && r.state.camera == Some(Capture(DefaultBackend, false))
    ensures (p.directShowOpens || p.defaultOpens) && !p.probeReads ==>
      && r.reply == Error(ProbeFailed) && r.state.camera == None
      // the capture that failed the probe is released after the read attempt
      && |r.effects| >= 2 && r.effects[|r.effects| - 2..] == [ReadProbe, Release(Acquire(p))]
    ensures !HoldsDevice(r.state) <==> r.reply.Error?
  {
    var s1 := s.(processingActive := false, videoPath := None);
    var before := ReleaseCurrent(s) + OpenAttempts(p);
    var c := Acquire(p);
    if !c.isOpen then
      Step(s1.(camera := Some(c)), Error(CameraOpenFailed), before)
    else if !p.probeReads then
      Step(s1.(camera := None), Error(ProbeFailed), before + [ReadProbe, Release(c)])
    else
      Step(s1.(camera := Some(c), cameraActive := true), Ok, before + [ReadProbe])
  }

  /** The effect log of `start_camera` past the old capture's release: the
      probe frame is read exactly when a backend opened; the only release is
      the failed probe's, and it comes last; so a successful start ends on
      the read and keeps the device it opened, and a failed open neither
      reads nor releases. */
  lemma StartCameraEffectLog(s: State, p: CameraProbe)
    ensures var r := StartCamera(s, p);
      && (ReadProbe in r.effects <==> p.directShowOpens || p.defaultOpens)
      && (forall i :: |ReleaseCurrent(s)| <= i < |r.effects| - 1 ==> !r.effects[i].Release?)
      && (r.effects[|r.effects| - 1].Release? <==> r.reply == Error(ProbeFailed))
      && (r.reply == Ok ==> r.effects[|r.effects| - 1] == ReadProbe)
  {
    var c := Acquire(p);
    var before := ReleaseCurrent(s) + OpenAttempts(p);
    var probe: seq<Effect> := if !c.isOpen then [] else if !p.probeReads then [ReadProbe, Release(c)] else [ReadProbe];
    ProbeLogShape(ReleaseCurrent(s), OpenAttempts(p), probe);
    assert StartCamera(s, p).effects == before + probe;
  }

  /** One request to the server, with the oracle answers its handler will see. */
  datatype Command =
    | Upload(form: UploadForm, safeName: string, saved: bool)
    | Start(probe: CameraProbe)
    | Stop
    | Abort

  function Handle(s: State, c: Command): Step {
    match c
    case Upload(form, name, saved) => UploadFile(s, form, name, saved)
    case Start(p) => StartCamera(s, p)
    case Stop => StopCamera(s)
    case Abort => AbortProcessing(s)
  }

  /** The state after serving the commands one at a time. */
  function Run(s: State, cmds: seq<Command>): State
    decreases |cmds|
  {
    if cmds == [] then s else Run(Handle(s, cmds[0]).state, cmds[1..])
  }

  /** What every reachable state satisfies: the two activity flags exclude
      each other, and file processing always has a video path to read. */
  predicate Inv(s: State) {
    && !(s.processingActive && s.cameraActive)
    && (s.processingActive ==> s.videoPath.Some?)
  }

  lemma HandlePreservesInv(s: State, c: Command)
    requires Inv(s)
    ensures Inv(Handle(s, c).state)
  {
  }

  lemma {:induction false} RunPreservesInv(s: State, cmds: seq<Command>)
    requires Inv(s)
    ensures Inv(Run(s, cmds))
    decreases |cmds|
  {
    if cmds != [] {
      HandlePreservesInv(s, cmds[0]);
      RunPreservesInv(Handle(s, cmds[0]).state, cmds[1..]);
    }
  }

  /** Every state reachable from import time keeps the flags exclusive. */
  lemma ReachableInv(cmds: seq<Command>)
    ensures Inv(Run(Init, cmds))
  {
    RunPreservesInv(Init, cmds);
  }

  /** Stopping is idempotent: a second stop changes nothing and releases nothing. */
  lemma StopCameraIdempotent(s: State)
    ensures StopCamera(StopCamera(s).state).state == StopCamera(s).state
    ensures StopCamera(StopCamera(s).state).effects == []
  {
  }

  /** After a camera that owned the device is aborted, the device is still
      held although `camera_active` is false. */
  lemma AbortKeepsDevice(s: State)
    requires HoldsDevice(s)
    ensures HoldsDevice(AbortProcessing(s).state) && !AbortProcessing(s).state.cameraActive
  {
  }

  /** A camera that starts, then fails its probe on a restart, leaves
      `camera_active` set with no capture held: the loop of the camera feed
      will not run, yet the event stream keeps polling. */
  lemma ActiveWithoutCamera(ok: CameraProbe, bad: CameraProbe)
    requires ok.directShowOpens && ok.probeReads
    requires bad.directShowOpens && !bad.probeReads
    ensures var s := Run(Init, [Start(ok), Start(bad)]);
      s.cameraActive && s.camera == None
  {
    var s1 := Handle(Init, Start(ok)).state;
    var s2 := Handle(s1, Start(bad)).state;
    assert s1.cameraActive;
    assert s2.cameraActive && s2.camera == None;
    assert [Start(ok), Start(bad)][1..] == [Start(bad)];
    assert Run(s1, [Start(bad)]) == Run(s2, []);
    assert Run(Init, [Start(ok), Start(bad)]) == Run(s1, [Start(bad)]);
  }
}
