# Road condition detection: the server's control state and the browser's alerting, in Dafny

The Flask server (`main.py`) keeps four global variables: `video_path`, `camera`,
`processing_active` and `camera_active`. Its request handlers move them between
"idle", "processing an uploaded video" and "streaming the live camera". Two
multipart generators stream JPEG frames. Each frame first goes through
`process_frame`, which draws the YOLO boxes and puts a `{"timestamp": …}` event
on a queue whenever a box is a pothole with confidence above 0.5. A
server-sent-events generator drains that queue. The page script
(`static/script.js`) has two pieces of state: an `isProcessing` flag that its
buttons update, and a five-second cooldown on the pothole alert sound.

The model is pure Dafny functions over immutable records:

- `Server` (`server.dfy`) covers the handlers `upload_file`, `start_camera`,
  `stop_camera` and `abort_processing` as transitions on a `State`. Each
  transition also returns the reply and the capture/file effects it performs
  in order. The module also holds the invariant every reachable state keeps.
- `Detection` (`detection.dfy`) covers `process_frame`. The detector's boxes
  and the clock are inputs.
- `Feeds` (`feeds.dfy`) covers `generate_frames`, `generate_camera_frames` and
  the `--frame` body part. Each generator is a function of what its loop
  observes, one `Tick` per iteration. A tick holds the value of the loop
  condition, which other handlers may flip between iterations, and what the
  read returned. A run of ticks that ends while the loop has not stopped by
  itself (`Horizon`) means the loop is still running, or the viewer closed
  the generator at a `yield`.
- `Events` (`events.dfy`) covers the event queue and `event_generator`. It
  also has a reader for the stream that follows section 9.2.6 of the WHATWG
  HTML Living Standard, so the text the server writes is proved to come back
  as the messages a browser's `EventSource` dispatches.
- `Client` (`client.dfy`) covers `playAlertSound` and the `isProcessing`
  transitions of the upload form, the abort button and the start-camera
  button.
- `Session` (`session.dfy`) puts the page and the server together. It shows
  when the page's `isProcessing` agrees with the server's `processing_active`
  and when it does not.
- `Common` (`common.dfy`) holds `Option`, bytes, `IndexOf` and ASCII lower-casing.

Oracle answers become parameters:

- whether a camera backend opens and whether the probe read succeeds;
- whether `file.save` returns normally;
- what `secure_filename` makes of a name;
- whether `os.path.exists` holds;
- the detector's boxes;
- the JPEG encoder's bytes;
- `time.time()` and `Date.now()`;
- the outcome of each `fetch`.

The model keeps the source's behaviour where it is surprising and states it in lemmas:

- A failed camera probe can leave `camera_active` set with no capture: `ActiveWithoutCamera`.
- Abort leaves the camera device held: `AbortKeepsDevice`.
- A failed save leaves the server processing while the page believes it stopped: `FailedSaveDesyncs`.

## Model

| member | source | states |
|---|---|---|
| Server.UploadPath | road-condition-detection/road-condition-detection/main.py:115-116 | `os.path.join('uploads', name)` on POSIX: an absolute name replaces the folder, any other name follows `uploads/`; a non-empty name of the kind `secure_filename` returns (ASCII letters, digits, `_`, `.`, `-`, no `.` or `_` at either end) is one component directly inside `uploads`, never `.` or `..` |
| Server.StopCamera | road-condition-detection/road-condition-detection/main.py:173-182 | always succeeds; afterwards no capture is held and `camera_active` is off; the held capture, if any, is released; video path and processing flag are untouched |
| Server.AbortProcessing | road-condition-detection/road-condition-detection/main.py:246-251 | always succeeds and performs no effect; clears both activity flags; keeps the capture and the video path |
| Server.UploadFile | road-condition-detection/road-condition-detection/main.py:100-121 | a missing file part or an empty name is rejected with its own error and changes nothing; otherwise an active camera is stopped first, the file is saved at `os.path.join('uploads', safe name)`, which lies inside `uploads` for a name `secure_filename` returns (`Server.UploadPath`), the video path is set even if the save fails, the reply is success exactly when the save succeeded, and processing is switched on only then |
| Server.StartCamera | road-condition-detection/road-condition-detection/main.py:123-161 | always switches processing off and clears the video path; releases the old capture before trying DirectShow, and tries the default backend exactly when DirectShow did not open; succeeds exactly when a backend opens and the probe frame reads; on success the capture that opened is stored; an unopened capture stays stored; a failed probe reads, then releases that capture, and drops it; the device is held exactly when it succeeded; `camera_active` is never cleared |
| Server.StartCameraEffectLog | road-condition-detection/road-condition-detection/main.py:131-161 | past the old capture's release, `start_camera` reads the probe exactly when a backend opened and releases only a capture whose probe failed, as its last effect; a successful start ends on the read, so it keeps the device it opened, and a failed open neither reads nor releases |
| Server.HandlePreservesInv | road-condition-detection/road-condition-detection/main.py:100-251 | no handler makes file processing and the camera active at once, and file processing always has a video path |
| Server.RunPreservesInv | road-condition-detection/road-condition-detection/main.py:100-251 | that invariant holds across any sequence of requests |
| Server.ReachableInv | road-condition-detection/road-condition-detection/main.py:42-46 | every state reachable from the initial globals satisfies the invariant |
| Server.StopCameraIdempotent | road-condition-detection/road-condition-detection/main.py:177-181 | a second stop changes nothing and releases nothing |
| Server.AbortKeepsDevice | road-condition-detection/road-condition-detection/main.py:248-250 | aborting a running camera leaves the device held while `camera_active` is off |
| Server.ActiveWithoutCamera | road-condition-detection/road-condition-detection/main.py:154-160 | a started camera followed by a restart whose probe fails leaves `camera_active` on with no capture |
| Detection.ScanBoxes | road-condition-detection/road-condition-detection/main.py:65-85 | the detection flag ends set exactly when it started set or some box qualifies |
| Detection.ProcessFrame | road-condition-detection/road-condition-detection/main.py:51-94 | one event, stamped with the clock, exactly when the frame has both dimensions, the detector answered, and some box is a pothole above 0.5; a zero-dimension frame comes back untouched; otherwise the frame comes back in colour with every box drawn, or none when the detector raised |
| Detection.PotholeLabelCaseInsensitive | road-condition-detection/road-condition-detection/main.py:84 | the label test accepts exactly the seven-letter spellings of "pothole" in any case mix |
| Detection.ConfidenceExamples | road-condition-detection/road-condition-detection/main.py:84-89 | a pothole box at 0.62 gives an event and one at 0.40 does not |
| Feeds.DecodePartExact | road-condition-detection/road-condition-detection/main.py:202-203 | a body part decodes to a payload exactly when it is that payload framed by the `--frame` header and a trailing CRLF |
| Feeds.FileLoop | road-condition-detection/road-condition-detection/main.py:193-203 | the loop's result equals the reference outcome: the parts of the frames it got past, the events of every frame it processed, in order, including one that then failed to encode, and why it stopped (false condition, failed read, unencodable frame, or still running) |
| Feeds.FileRecords | road-condition-detection/road-condition-detection/main.py:193-203 | the file feed yields exactly one part per frame it got past; each such frame was read under a true condition, has both dimensions, and its part is its framed encoding |
| Feeds.StopAtFirst | road-condition-detection/road-condition-detection/main.py:193-199 | a loop that stops at its first tick yields no part and enqueues only the events of a frame it processed but could not encode |
| Feeds.LoopStep | road-condition-detection/road-condition-detection/main.py:193-203 | a loop that gets past its first tick yields that tick's part and events ahead of what it does with the rest |
| Feeds.CameraLoop | road-condition-detection/road-condition-detection/main.py:210-230 | the same reference outcome, except that zero-dimension frames are skipped unprocessed and the loop goes on, so the parts are exactly those of the encodable frames up to the stop |
| Feeds.GenerateFrames | road-condition-detection/road-condition-detection/main.py:185-205 | does not start (exit `NotStarted`, no parts, no events) exactly when the video path is unset, empty or missing; otherwise it is the file loop |
| Feeds.GenerateCameraFrames | road-condition-detection/road-condition-detection/main.py:207-234 | once the loop ends, the capture is released and cleared and nothing else in the state changes; a generator closed by a disconnect does neither |
| Events.Put | road-condition-detection/road-condition-detection/main.py:89 | an event joins the back of the queue and nothing ahead of it moves |
| Events.TryGet | road-condition-detection/road-condition-detection/main.py:260-265 | a non-blocking get fails exactly on an empty queue, otherwise it splits off the oldest event |
| Events.PutAllAppends | road-condition-detection/road-condition-detection/main.py:48-49 | events put one by one queue up in the order given behind the old ones |
| Events.EventGenerator | road-condition-detection/road-condition-detection/main.py:256-274 | the generator's result equals the reference drain: one message for each of the oldest events, as many as there were live polls, then the close message exactly when the condition was seen to fail; the rest of the queue stays behind |
| Events.IdlePoll | road-condition-detection/road-condition-detection/main.py:257-265 | a live poll on an empty queue yields nothing |
| Events.DeliveringPoll | road-condition-detection/road-condition-detection/main.py:257-263 | a live poll on a non-empty queue yields the oldest event ahead of everything later polls yield |
| Events.OnePollThenClose | road-condition-detection/road-condition-detection/main.py:257-274 | one live poll then a failed condition gives at most one pothole message and then the close message |
| Events.DrainsInOrder | road-condition-detection/road-condition-detection/main.py:257-263 | with enough live polls, every queued event is delivered exactly once, in order, then the stream closes with an empty queue |
| Events.EventWritable | road-condition-detection/road-condition-detection/main.py:263 | a pothole message fits on single `event:` and `data:` lines when its timestamp has no line break |
| Events.TextReadsBack | road-condition-detection/road-condition-detection/main.py:263 | an event-stream reader turns one written message, followed by anything, into that message followed by whatever the rest reads as |
| Events.JoinReadsBack | road-condition-detection/road-condition-detection/main.py:274 | concatenated messages read back as the same messages in the same order |
| Events.StreamMessages | road-condition-detection/road-condition-detection/main.py:256-274 | a closed stream yields the events it took off the queue, then the close message |
| Events.BodyReadsBack | road-condition-detection/road-condition-detection/main.py:263-274 | written messages, joined, read back as exactly those messages |
| Events.StreamReadsBack | road-condition-detection/road-condition-detection/main.py:256-277 | a browser reading a closed stream dispatches one `pothole_detected` message per delivered event, in queue order, with its timestamp, then exactly one `close` |
| Client.PlayAlertSound | road-condition-detection/road-condition-detection/static/script.js:139-161 | the sound plays exactly when more than 5000 ms have passed since the last one, and only then is the time recorded |
| Client.FirstAlert | road-condition-detection/road-condition-detection/static/script.js:4-5 | the first alert after load plays exactly when the clock is past 5000 ms |
| Client.AlertsSpaced | road-condition-detection/road-condition-detection/static/script.js:139-146 | over any series of calls, each alert that plays is more than 5000 ms after the previous one, and the recorded time is the last alert's |
| Client.AnyTwoAlertsSpaced | road-condition-detection/road-condition-detection/static/script.js:143-146 | any two alerts that play, not only neighbours, are more than 5000 ms apart |
| Client.SubmitUpload | road-condition-detection/road-condition-detection/static/script.js:8-55 | with no file chosen nothing is sent and nothing changes; otherwise the camera stop and then the upload are requested, and the page is processing afterwards exactly when the upload returned an ok, parseable response |
| Client.ClickAbort | road-condition-detection/road-condition-detection/static/script.js:58-73 | sends an abort only while processing, and only an ok response clears the flag |
| Client.ClickStartCamera | road-condition-detection/road-condition-detection/static/script.js:76-106 | while processing, an abort goes first and any response to it clears the flag; a rejected abort stops the handler before the camera is requested; the camera is only ever requested with processing off |
| Session.AsFetch | road-condition-detection/road-condition-detection/main.py:120-121 | the page sees a successful response exactly for a success reply |
| Session.ExchangeKeepsAgreement | road-condition-detection/road-condition-detection/static/script.js:20-35 | each button press (upload whose file is stored, abort, start camera, stop camera) keeps the page's flag equal to the server's, whichever of stop and upload the server sees first, and keeps the server invariant |
| Session.SessionAgrees | road-condition-detection/road-condition-detection/static/script.js:28-85 | that agreement and the server invariant hold across any series of such presses |
| Session.ReachableAgreement | road-condition-detection/road-condition-detection/main.py:42-46 | from page load and server start, for every run of presses that each complete before the next, whose uploads are named and saved (rejected fetches are not part of the composition), the page's flag equals the server's |
| Session.FailedSaveDesyncs | road-condition-detection/road-condition-detection/main.py:115-121 | an upload whose save fails while a video is processing leaves the page not processing and the server processing |
| Session.AbortDuringUploadDesyncs | road-condition-detection/road-condition-detection/static/script.js:28-68 | an abort pressed while an upload is in flight and served before it leaves the page not processing while the server, once the upload is saved, is processing |

## Left out

- Flask routing, request parsing and the JSON reply bodies. A reply is
  success or a named error; `jsonify` output is not modelled byte for byte.
- `secure_filename`, `os.path.exists`, `file.save` and `os.makedirs` are foreign
  calls. Their results are parameters: the safe name, a file-exists flag and a
  saved flag. Directory creation at import is not modelled.
- The model load at import (`main.py` lines 28-39) is left out, including its
  `FileNotFoundError`. The model is always taken as loaded.
- OpenCV is not modelled. Capture opening, reading, `camera.set`, colour
  conversion, `imencode` and drawing are oracles or records. A frame is its
  dimensions and channel count; an encoded JPEG is an arbitrary byte string.
- A `cv2.VideoCapture` constructor that raises is not modelled. Opening either
  succeeds or yields an unopened capture.
- Changes of `cap.isOpened()` during the file loop fold into the loop
  condition the tick records.
- Exceptions raised part-way through drawing are left out. The model draws all
  boxes or, when the detector raises, none.
- YOLO's result list is flattened into one list of boxes. Box coordinates and
  label text are not modelled.
- `time.time()` and `time.sleep(0.1)` are left out. A timestamp is the text
  Python prints for it, and polling delays are not modelled.
- Threads and the locking inside `queue.Queue` are not modelled. Concurrent
  requests appear only as loop conditions that change between iterations, and
  as the two arrival orders of the page's stop and upload requests.
- `os.path.join` is taken with the POSIX separator; its Windows drive rules
  are not modelled.
- Server.UploadPath: `secure_filename` itself is not modelled; its result is a
  parameter, and the confinement to `uploads` is stated for names of the kind
  it returns on a POSIX host. The Windows device-name prefix is not modelled.
- Events.EventGenerator: events put while the stream is open are not modelled.
  The generator drains the queue as it stood when the stream opened.
- Detection.PotholeLabelCaseInsensitive: `str.lower()` is modelled for ASCII
  letters only. Non-ASCII characters are compared unlowered. Python lowers no
  non-ASCII character to one of the letters of "pothole", so the verdict
  should be the same, but the model does not cover Unicode case mapping.
- Events.TextReadsBack: the event-stream reader handles only LF line ends,
  which is all the server writes. It does not handle CR or CRLF, the `id` and
  `retry` fields, or the byte-order mark.
- Session.ExchangeKeepsAgreement: rejected `fetch` calls are left out of the
  composition. The server always answers, so with one press at a time only
  the upload's outcome can make the two flags part.
- Session.ReachableAgreement: presses that overlap are not modelled. An abort
  or start-camera press while an upload is still in flight is a second way
  the two flags come apart (`Session.AbortDuringUploadDesyncs` shows one such
  order).
- Client: DOM updates, `alert()`, audio playback, the status texts, `stream`
  tracks and the `EventSource` listener wiring (`script.js` lines 108-184
  beyond `playAlertSound`) are left out. The camera stop request is recorded
  as sent, without its UI callbacks.
- The unused `PROCESSED_FOLDER`, the `index` route, and the `video_feed` and
  `camera_feed` wrappers are left out. Each wrapper only sets a MIME type
  around a generator.
