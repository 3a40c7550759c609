/** The session controller of `SpeechRecognitionPlugin` as a sequential
    transition system. A `World` holds the plugin's fields, the append-only
    log of everything passed to `notifyListeners`, and the work posted to
    the main looper that has not run yet. Every entry point and every
    posted runnable is one pure step from a World to a World; the lock is
    implicit in the steps being atomic. */
module Plugin {

  import opened Options
  import opened Events

  datatype ListeningState = Idle | Starting | Started | Stopping

  /** What a `SpeechRecognitionListener` captures when it is built: the
      session id, whether a plugin call is attached, and the partialResults
      option of that call. */
  datatype Listener = Listener(sessionId: int, hasCall: bool, partialResults: bool)

  /** A runnable posted to the main looper and not yet run. */
  datatype Task =
    | BeginListening(listener: Listener)
    | StopListening
    | Recreate(finishedId: int, reason: Reason, errorCode: Option<string>)

  /** The plugin's mutable fields; `recognizerLive` stands for
      `speechRecognizer != null`. */
  datatype Fields = Fields(
    state: ListeningState,
    sessionId: int,
    listening: bool,
    readyForNext: bool,
    recognizerLive: bool,
    previousPartialResults: seq<string>)

  datatype World = World(plugin: Fields, log: seq<Event>, posted: seq<Task>)

  /** The plugin as constructed, before any call. */
  const INITIAL: World := World(Fields(Idle, 0, false, true, false, []), [], [])

  const START_FAILED: string := "START_FAILED"
  const RECREATE_FAILED: string := "RECREATE_FAILED"

  /** `isListening` reports the `listening` flag, not the state. */
  function IsListening(w: World): bool {
    w.plugin.listening
  }

  /** `start` on the inline (no popup) path. A call that fails either
      precondition is rejected before the lock is taken. */
  function Start(w: World, available: bool, granted: bool, partialResults: bool): (r: World)
    ensures !(available && granted) ==> r == w
    ensures available && granted ==>
      && r.plugin == w.plugin.(state := Starting, sessionId := w.plugin.sessionId + 1)
      && r.log == w.log + [ListeningState(StartingListening, w.plugin.sessionId + 1, UserStart, None, None)]
      && r.posted == w.posted + [BeginListening(Listener(w.plugin.sessionId + 1, true, partialResults))]
  {
    if !available || !granted then w
    else
      var id := w.plugin.sessionId + 1;
      World(
        w.plugin.(sessionId := id, state := Starting),
        w.log + [ListeningState(StartingListening, id, UserStart, None, None)],
        w.posted + [BeginListening(Listener(id, true, partialResults))])
  }

  /** `stop`: nothing at all while IDLE; otherwise announce the stop and ask
      the recognizer to stop. No deadline is armed. */
  function Stop(w: World): (r: World)
    ensures w.plugin.state == Idle ==> r == w
    ensures w.plugin.state != Idle ==>
      && r.plugin == w.plugin.(state := Stopping)
      && r.log == w.log + [ListeningState(StoppingListening, w.plugin.sessionId, UserStop, None, None)]
      && r.posted == w.posted + [StopListening]
  {
    if w.plugin.state == Idle then w
    else
      World(
        w.plugin.(state := Stopping),
        w.log + [ListeningState(StoppingListening, w.plugin.sessionId, UserStop, None, None)],
        w.posted + [StopListening])
  }

  /** The locked half of `finishSession` plus the posting of the recreate
      runnable. A finish for any id but the current one is ignored. */
  function FinishSession(w: World, finishedId: int, reason: Reason, errorCode: Option<string>): (r: World)
    ensures finishedId != w.plugin.sessionId ==> r == w
    ensures finishedId == w.plugin.sessionId ==>
      && r.plugin == w.plugin.(state := Idle, listening := false, readyForNext := false, recognizerLive := false)
      && (w.plugin.state == Stopping ==> r.log == w.log)
      && (w.plugin.state != Stopping ==>
            r.log == w.log + [ListeningState(StoppingListening, finishedId, reason, errorCode, None)])
      && r.posted == w.posted + [Recreate(finishedId, reason, errorCode)]
  {
    if finishedId != w.plugin.sessionId then w
    else
      var log :=
        if w.plugin.state != Stopping
        then w.log + [ListeningState(StoppingListening, finishedId, reason, errorCode, None)]
        else w.log;
      World(
        w.plugin.(state := Idle, listening := false, readyForNext := false, recognizerLive := false),
        log,
        w.posted + [Recreate(finishedId, reason, errorCode)])
  }

  /** The runnable posted by `beginListening`, when the recognizer was
      created and started: state STARTED and `started`, with no check that
      the captured session is still the current one. */
  function BeginListeningSucceeded(w: World, l: Listener): (r: World)
    ensures r.plugin == w.plugin.(state := Started, listening := true, recognizerLive := true)
    ensures r.log == w.log + [ListeningState(StartedListening, l.sessionId, UserStart, None, Some("started"))]
    ensures r.posted == w.posted
  {
    World(
      w.plugin.(recognizerLive := true, listening := true, state := Started),
      w.log + [ListeningState(StartedListening, l.sessionId, UserStart, None, Some("started"))],
      w.posted)
  }

  /** The same runnable when creating or starting the recognizer threw.
      `held` says whether a recognizer was assigned before the exception. */
  function BeginListeningFailed(w: World, l: Listener, held: bool, message: string): (r: World)
    ensures l.sessionId != w.plugin.sessionId ==>
      && r.plugin == w.plugin.(recognizerLive := held)
      && r.log == w.log + [ErrorEvent(START_FAILED, message, l.sessionId)]
      && r.posted == w.posted
    ensures l.sessionId == w.plugin.sessionId ==>
      && r.plugin == w.plugin.(state := Idle, listening := false, readyForNext := false, recognizerLive := false)
      && r.log == w.log + [ErrorEvent(START_FAILED, message, l.sessionId)]
                        + (if w.plugin.state == Stopping then []
                           else [ListeningState(StoppingListening, l.sessionId, Error, Some(START_FAILED), None)])
      && r.posted == w.posted + [Recreate(l.sessionId, Error, Some(START_FAILED))]
  {
    var failed := World(
      w.plugin.(recognizerLive := held),
      w.log + [ErrorEvent(START_FAILED, message, l.sessionId)],
      w.posted);
    FinishSession(failed, l.sessionId, Error, Some(START_FAILED))
  }

  /** The runnable posted by `stopListening`. */
  function StopListeningRan(w: World): (r: World)
    ensures r.plugin == w.plugin.(listening := false)
    ensures r.log == w.log && r.posted == w.posted
  {
    if w.plugin.listening then w.(plugin := w.plugin.(listening := false)) else w
  }

  /** The `stopped` event that closes a finished session. */
  function StoppedEvent(finishedId: int, reason: Reason, errorCode: Option<string>): Event {
    ListeningState(StoppedListening, finishedId, reason, errorCode, Some("stopped"))
  }

  /** The recreate runnable posted by `finishSession`: on success the
      plugin is ready and says so before `stopped`; on failure it reports
      RECREATE_FAILED and still closes the session with `stopped`. `held`
      says whether the new recognizer was assigned before the exception
      (installing its listener can still throw). */
  function RecreateRan(w: World, finishedId: int, reason: Reason, errorCode: Option<string>,
                       created: bool, held: bool, message: string): (r: World)
    ensures r.posted == w.posted
    ensures created ==>
      && r.plugin == w.plugin.(readyForNext := true, recognizerLive := true)
      && r.log == w.log + [ReadyForNextSession(finishedId), StoppedEvent(finishedId, reason, errorCode)]
    ensures !created ==>
      && r.plugin == w.plugin.(recognizerLive := held || w.plugin.recognizerLive)
      && r.log == w.log + [ErrorEvent(RECREATE_FAILED, message, finishedId), StoppedEvent(finishedId, reason, errorCode)]
  {
    if created then
      World(
        w.plugin.(recognizerLive := true, readyForNext := true),
        w.log + [ReadyForNextSession(finishedId), StoppedEvent(finishedId, reason, errorCode)],
        w.posted)
    else
      World(
        w.plugin.(recognizerLive := held || w.plugin.recognizerLive),
        w.log + [ErrorEvent(RECREATE_FAILED, message, finishedId), StoppedEvent(finishedId, reason, errorCode)],
        w.posted)
  }
}
