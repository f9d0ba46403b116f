/** The page and the server together: each button press runs the script's
    handler, the requests it sends are served by the server's handlers in
    the order they arrive, and each response the script awaits is the
    server's reply. Network failures are not part of this composition. */
module Session {
  import Server
  import Client

  /** How the script sees a server reply: only the success replies carry
      status 200, and their `jsonify` bodies parse. Error replies are not ok,
      so whether their body parses does not matter to the flag (the
      `SaveFailed` reply is Flask's own 500 page). */
  function AsFetch(reply: Server.Reply): (f: Client.Fetch)
    ensures f.Response? && (f.ok <==> reply == Server.Ok)
  {
    Client.Response(reply.Ok?, reply.Ok?)
  }

  /** A user action on the page, with the server-side oracle answers it meets:
      the chosen file's name, what `secure_filename` makes of it and whether
      `file.save` succeeds; or the camera probe. */
  datatype Action =
    | Submit(filesChosen: nat, name: string, safeName: string, saved: bool)
    | PressAbort
    | PressStartCamera(probe: Server.CameraProbe)
    | PressStopCamera

  datatype Both = Both(isProcessing: bool, server: Server.State)

  /** One action end to end. The script does not await `/stop_camera` before
      posting `/upload`, so `stopFirst` says which of the two the server
      serves first. */
  function Exchange(b: Both, a: Action, stopFirst: bool): Both {
    match a
    case Submit(n, name, safeName, saved) =>
      if n == 0 then b
      else
        var up := if stopFirst
          then Server.UploadFile(Server.StopCamera(b.server).state, Server.File(name), safeName, saved)
          else Server.UploadFile(b.server, Server.File(name), safeName, saved);
        var after := if stopFirst then up.state else Server.StopCamera(up.state).state;
        Both(Client.SubmitUpload(b.isProcessing, n, AsFetch(up.reply)).isProcessing, after)
    case PressAbort =>
      if !b.isProcessing then b
      else
        var ab := Server.AbortProcessing(b.server);
        Both(Client.ClickAbort(b.isProcessing, AsFetch(ab.reply)).isProcessing, ab.state)
    case PressStartCamera(p) =>
      var s1 := if b.isProcessing then Server.AbortProcessing(b.server).state else b.server;
      var abortReply := AsFetch(Server.Ok);
      Both(Client.ClickStartCamera(b.isProcessing, abortReply).isProcessing, Server.StartCamera(s1, p).state)
    case PressStopCamera =>
      // `stopCamera()` posts `/stop_camera` without awaiting it and never touches the flag.
      Both(b.isProcessing, Server.StopCamera(b.server).state)
  }

  /** The page's flag matches the server's. */
  predicate Agree(b: Both) {
    b.isProcessing == b.server.processingActive
  }

  /** Actions the browser can produce whose upload is stored: a file input
      never offers an empty file name, and a failing save is the one way the
      two flags part (see `FailedSaveDesyncs`). */
  predicate Stored(a: Action) {
    a.Submit? && a.filesChosen > 0 ==> a.name != "" && a.saved
  }

  /** Every stored action keeps the page and the server in agreement, in
      either arrival order of the stop and upload requests. */
  lemma ExchangeKeepsAgreement(b: Both, a: Action, stopFirst: bool)
    requires Agree(b) && Stored(a)
    ensures Agree(Exchange(b, a, stopFirst))
    ensures Server.Inv(b.server) ==> Server.Inv(Exchange(b, a, stopFirst).server)
  {
  }

  function RunActions(b: Both, actions: seq<Action>, orders: seq<bool>): Both
    requires |orders| == |actions|
    decreases |actions|
  {
    if actions == [] then b else RunActions(Exchange(b, actions[0], orders[0]), actions[1..], orders[1..])
  }

  /** Any run of stored actions from agreeing states keeps the flags equal and the server invariant. */
  lemma {:induction false} SessionAgrees(b: Both, actions: seq<Action>, orders: seq<bool>)
    requires |orders| == |actions|
    requires Agree(b) && Server.Inv(b.server)
    requires forall i :: 0 <= i < |actions| ==> Stored(actions[i])
    ensures Agree(RunActions(b, actions, orders)) && Server.Inv(RunActions(b, actions, orders).server)
    decreases |actions|
  {
    if actions != [] {
      ExchangeKeepsAgreement(b, actions[0], orders[0]);
      SessionAgrees(Exchange(b, actions[0], orders[0]), actions[1..], orders[1..]);
    }
  }

  /** From page load and server start, any run of stored actions keeps the
      page's flag equal to the server's. */
  lemma ReachableAgreement(actions: seq<Action>, orders: seq<bool>)
    requires |orders| == |actions|
    requires forall i :: 0 <= i < |actions| ==> Stored(actions[i])
    ensures RunActions(Both(false, Server.Init), actions, orders).isProcessing
      == RunActions(Both(false, Server.Init), actions, orders).server.processingActive
  {
    SessionAgrees(Both(false, Server.Init), actions, orders);
  }

  /** Presses that overlap lie outside `Exchange`. An abort clicked while
      the upload is still in flight, and served before it, clears the page's
      flag; the upload's success path never sets it again, yet the server
      then starts processing. */
  lemma AbortDuringUploadDesyncs(s: Server.State, name: string, safeName: string)
    requires name != ""
    ensures var aborted := Server.AbortProcessing(Server.StopCamera(s).state);
      var up := Server.UploadFile(aborted.state, Server.File(name), safeName, true);
      && !Client.ClickAbort(true, AsFetch(aborted.reply)).isProcessing
      && up.reply == Server.Ok
      && up.state.processingActive
  {
  }

  /** An upload whose save fails while a previous file is still being
      processed: the page clears its flag, the server keeps processing. */
  lemma FailedSaveDesyncs(b: Both, name: string, safeName: string, stopFirst: bool)
    requires Agree(b) && b.server.processingActive && name != ""
    ensures var after := Exchange(b, Submit(1, name, safeName, false), stopFirst);
      !after.isProcessing && after.server.processingActive
  {
  }
}
