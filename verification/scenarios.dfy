/** Concrete runs that pin down what the controller does where the
    source's own comments promise something (a `started` signal even during
    silence, errors never swallowed), including the places where it does
    less or more than a reader might expect. */
module Scenarios {

  import opened Options
  import opened Events
  import opened Matches
  import opened Plugin
  import opened RecognitionListener
  import opened Sessions

  const OK: Outcome := Outcome(true, true, "")
  const STREAMING_START: Action := CallStart(true, true, true)
  const FIRST: Listener := Listener(1, true, true)

  /** The actions of a session ended by silence: start, the recognizer
      starts, NO_MATCH arrives, the recreate runs. */
  const SILENCE_RUN: seq<Action> := [STREAMING_START, RunPosted(OK), NativeError(FIRST, 7), RunPosted(OK)]

  /** Where the silence run leaves the plugin: IDLE, ready, with a live
      recognizer and nothing left to run. */
  lemma SilenceRunWorld()
    ensures Run(INITIAL, SILENCE_RUN) == World(
      Fields(Idle, 1, false, true, true, []),
      [ ListeningState(StartingListening, 1, UserStart, None, None),
        ListeningState(StartedListening, 1, UserStart, None, Some("started")),
        ErrorEvent("NO_MATCH", "No match", 1),
        ListeningState(StoppingListening, 1, Silence, Some("NO_MATCH"), None),
        ReadyForNextSession(1),
        ListeningState(StoppedListening, 1, Silence, Some("NO_MATCH"), Some("stopped"))],
      [])
  {
    var w1 := Step(INITIAL, STREAMING_START);
    var w2 := Step(w1, RunPosted(OK));
    var w3 := Step(w2, NativeError(FIRST, 7));
    assert w3.posted == [Recreate(1, Silence, Some("NO_MATCH"))];
    var w4 := Step(w3, RunPosted(OK));
    RunFirst(INITIAL, STREAMING_START, [RunPosted(OK), NativeError(FIRST, 7), RunPosted(OK)]);
    RunFirst(w1, RunPosted(OK), [NativeError(FIRST, 7), RunPosted(OK)]);
    RunFirst(w2, NativeError(FIRST, 7), [RunPosted(OK)]);
    RunFirst(w3, RunPosted(OK), []);
  }

  /** Silence, as published: the error comes first, then stoppingListening
      with reason silence, then readyForNextSession and `stopped`. */
  lemma SilenceScenario()
    ensures Run(INITIAL, SILENCE_RUN).log == [
      ListeningState(StartingListening, 1, UserStart, None, None),
      ListeningState(StartedListening, 1, UserStart, None, Some("started")),
      ErrorEvent("NO_MATCH", "No match", 1),
      ListeningState(StoppingListening, 1, Silence, Some("NO_MATCH"), None),
      ReadyForNextSession(1),
      ListeningState(StoppedListening, 1, Silence, Some("NO_MATCH"), Some("stopped"))]
  {
    SilenceRunWorld();
  }

  /** A `stop` while STARTING is overwritten: the start runnable, running
      later, sets STARTED and emits `started` after stoppingListening. */
  lemma StopDuringStartingIsOverwritten()
    ensures var w := Run(INITIAL, [STREAMING_START, CallStop, RunPosted(OK)]);
      && w.plugin.state == Started
      && w.log == [
        ListeningState(StartingListening, 1, UserStart, None, None),
        ListeningState(StoppingListening, 1, UserStop, None, None),
        ListeningState(StartedListening, 1, UserStart, None, Some("started"))]
  {
    var w1 := Step(INITIAL, STREAMING_START);
    var w2 := Step(w1, CallStop);
    var w3 := Step(w2, RunPosted(OK));
    RunFirst(INITIAL, STREAMING_START, [CallStop, RunPosted(OK)]);
    RunFirst(w1, CallStop, [RunPosted(OK)]);
    RunFirst(w2, RunPosted(OK), []);
  }

  /** A second finish for the still-current session is not ignored: it
      announces the stop again and closes the session a second time. */
  lemma SecondFinishClosesAgain()
    ensures var log := Run(INITIAL, SILENCE_RUN + [NativeError(FIRST, 7), RunPosted(OK)]).log;
      && |log| == 10
      && log[5] == StoppedEvent(1, Silence, Some("NO_MATCH"))
      && log[7] == ListeningState(StoppingListening, 1, Silence, Some("NO_MATCH"), None)
      && log[9] == StoppedEvent(1, Silence, Some("NO_MATCH"))
  {
    RunAppend(INITIAL, SILENCE_RUN, [NativeError(FIRST, 7), RunPosted(OK)]);
    SilenceRunWorld();
    var w4 := Run(INITIAL, SILENCE_RUN);
    var w5 := Step(w4, NativeError(FIRST, 7));
    var w6 := Step(w5, RunPosted(OK));
    RunFirst(w4, NativeError(FIRST, 7), [RunPosted(OK)]);
    RunFirst(w5, RunPosted(OK), []);
  }

  /** `isListening` is not "state is not IDLE": right after `start` the
      state is STARTING while the flag is still false. */
  lemma ListeningFlagLagsState()
    ensures var w := Run(INITIAL, [STREAMING_START]);
      w.plugin.state == Starting && !IsListening(w)
  {
    RunFirst(INITIAL, STREAMING_START, []);
  }

  /** A callback of a superseded session still publishes: the error event
      of `onError`, and the streamed matches of `onResults`. Only the
      finish is dropped. */
  lemma StaleCallbacksStillPublish(w: World, stale: Listener, error: int, b: Bundle)
    requires stale.sessionId < w.plugin.sessionId
    requires stale.hasCall && stale.partialResults
    ensures OnError(w, stale, error).plugin == w.plugin
    ensures OnError(w, stale, error).log
      == w.log + [ErrorEvent(ErrorMapping.ErrorCode(error), ErrorMapping.ErrorText(error), stale.sessionId)]
    ensures OnResults(w, stale, b, false).plugin == w.plugin
    ensures OnResults(w, stale, b, false).log == w.log + [PartialResults(FinalMatches(b))]
    ensures OnResults(w, stale, b, false).posted == w.posted
  {
  }

  /** Repeated `stop` while IDLE publishes nothing and changes nothing. */
  lemma StopWhileIdleIsIdempotent(w: World)
    requires w.plugin.state == Idle
    ensures Stop(w) == w && Stop(Stop(w)) == Stop(w)
  {
  }

  /** The same partial results delivered twice are published once. */
  lemma PartialResultsDeduplicated(w: World, b: Bundle)
    ensures OnPartialResults(OnPartialResults(w, b), b) == OnPartialResults(w, b)
  {
  }

  /** The de-duplication memory is never cleared between sessions: a new
      session whose first partial result equals the last one of the
      previous session publishes nothing. */
  lemma PartialMemorySurvivesSessions(w: World, b: Bundle, id: int, reason: Reason, code: Option<string>)
    requires BuildMatchesWithUnstableText(b) == Some(w.plugin.previousPartialResults)
    ensures var next := Start(FinishSession(w, id, reason, code), true, true, true);
      OnPartialResults(next, b) == next
  {
  }
}
