/** The browser script's own state: the alert cooldown (`lastAlertTime`,
    `playAlertSound`) and the `isProcessing` flag as the upload, abort and
    start-camera handlers update it. DOM updates, audio playback and the
    `EventSource` wiring are left out; each handler reports the requests it
    sends, in order, and the `fetch` outcomes are inputs. */
module Client {

  /** Milliseconds that must pass, strictly, between two alert sounds. */
  const AlertCooldown: int := 5000

  /** `lastAlertTime` when the page loads. */
  const InitialAlertTime: int := 0

  datatype Alert = Alert(fired: bool, lastAlertTime: int)

  /** `playAlertSound()` called at `Date.now() == now`. */
  function PlayAlertSound(lastAlertTime: int, now: int): (r: Alert)
    ensures r.fired <==> now - lastAlertTime > AlertCooldown
    ensures r.fired ==> r.lastAlertTime == now
    ensures !r.fired ==> r.lastAlertTime == lastAlertTime
  {
    if now - lastAlertTime > AlertCooldown then Alert(true, now) else Alert(false, lastAlertTime)
  }

  /** The first alert after the page loads sounds exactly when the clock is past 5000 ms. */
  lemma FirstAlert(now: int)
    ensures PlayAlertSound(InitialAlertTime, now).fired <==> now > 5000
  {
  }

  /** The times, among successive calls at `times`, at which the sound played. */
  function FiredTimes(lastAlertTime: int, times: seq<int>): seq<int>
    decreases |times|
  {
    if times == [] then []
    else
      var a := PlayAlertSound(lastAlertTime, times[0]);
      (if a.fired then [times[0]] else []) + FiredTimes(a.lastAlertTime, times[1..])
  }

  /** `lastAlertTime` after successive calls at `times`. */
  function LastAlertAfter(lastAlertTime: int, times: seq<int>): int
    decreases |times|
  {
    if times == [] then lastAlertTime
    else LastAlertAfter(PlayAlertSound(lastAlertTime, times[0]).lastAlertTime, times[1..])
  }

  /** Successive alerts are spaced: each one sounds more than the cooldown
      after the previous one (or after the starting `lastAlertTime`), and
      `lastAlertTime` ends at the last alert, or where it started if none
      sounded. No monotone clock is assumed. */
  lemma {:induction false} AlertsSpaced(lastAlertTime: int, times: seq<int>)
    ensures var f := FiredTimes(lastAlertTime, times);
      && (f != [] ==> f[0] - lastAlertTime > AlertCooldown)
      && (forall i :: 0 <= i < |f| - 1 ==> f[i + 1] - f[i] > AlertCooldown)
      && LastAlertAfter(lastAlertTime, times) == (if f == [] then lastAlertTime else f[|f| - 1])
    decreases |times|
  {
    if times != [] {
      var a := PlayAlertSound(lastAlertTime, times[0]);
      AlertsSpaced(a.lastAlertTime, times[1..]);
      var rest := FiredTimes(a.lastAlertTime, times[1..]);
      if a.fired {
        assert FiredTimes(lastAlertTime, times) == [times[0]] + rest;
      }
    }
  }

  /** Any two alerts, not only neighbours, are more than the cooldown apart. */
  lemma {:induction false} AnyTwoAlertsSpaced(lastAlertTime: int, times: seq<int>, i: nat, j: nat)
    requires i < j < |FiredTimes(lastAlertTime, times)|
    ensures FiredTimes(lastAlertTime, times)[j] - FiredTimes(lastAlertTime, times)[i] > AlertCooldown
    decreases j - i
  {
    AlertsSpaced(lastAlertTime, times);
    if j > i + 1 {
      AnyTwoAlertsSpaced(lastAlertTime, times, i, j - 1);
    }
  }

  /** The requests the script sends. */
  datatype Request = PostUpload | PostAbort | PostStartCamera | PostStopCamera

  /** How an awaited `fetch` ends: it rejects, or a response arrives with
      its `ok` flag and whether its body parsed as JSON. */
  datatype Fetch = NetworkError | Response(ok: bool, jsonOk: bool)

  datatype Step = Step(isProcessing: bool, sent: seq<Request>)

  /** The upload form's submit handler. Without a chosen file nothing is sent.
      Otherwise it asks the server to stop the camera, sets `isProcessing`,
      posts the file, and clears the flag again unless the upload succeeded
      (an ok response whose body parses). */
  function SubmitUpload(isProcessing: bool, filesChosen: nat, upload: Fetch): (r: Step)
    ensures filesChosen == 0 ==> r == Step(isProcessing, [])
    ensures filesChosen > 0 ==> r.sent == [PostStopCamera, PostUpload]
    ensures filesChosen > 0 ==> (r.isProcessing <==> upload == Response(true, true))
  {
    if filesChosen == 0 then Step(isProcessing, [])
    else
      // `isProcessing = true` before the fetch; the catch block resets it.
      var succeeded := upload.Response? && upload.ok && upload.jsonOk;
      Step(succeeded, [PostStopCamera, PostUpload])
  }

  /** The abort button: only while processing does it post `/abort`, and only
      an ok response clears the flag; a rejected fetch or an error status leaves it set. */
  function ClickAbort(isProcessing: bool, abort: Fetch): (r: Step)
    ensures !isProcessing ==> r == Step(false, [])
    ensures isProcessing ==> r.sent == [PostAbort]
    ensures isProcessing ==> (r.isProcessing <==> !(abort.Response? && abort.ok))
  {
    if !isProcessing then Step(isProcessing, [])
    else match abort
      case NetworkError => Step(isProcessing, [PostAbort])
      case Response(ok, _) => Step(if ok then false else isProcessing, [PostAbort])
  }

  /** The start-camera button. While processing it first awaits `/abort` and
      clears the flag whatever the response status; a rejected abort fetch
      jumps to the catch block, so the flag stays set and `/start_camera` is
      never requested. The camera's own response does not touch the flag. */
  function ClickStartCamera(isProcessing: bool, abort: Fetch): (r: Step)
    ensures !r.isProcessing <==> !isProcessing || abort.Response?
    ensures r.sent == (if !isProcessing then [PostStartCamera]
                       else if abort.NetworkError? then [PostAbort]
                       else [PostAbort, PostStartCamera])
    // When `/start_camera` is requested, processing has already been switched off.
    ensures PostStartCamera in r.sent ==> !r.isProcessing
  {
    if !isProcessing then Step(false, [PostStartCamera])
    else if abort.NetworkError? then Step(true, [PostAbort])
    else Step(false, [PostAbort, PostStartCamera])
  }
}
