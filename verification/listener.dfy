/** The callbacks of `SpeechRecognitionListener` that change the plugin or
    publish something. Each is a step on the plugin's World; the listener
    whose recognizer fires the callback is a parameter. */
module RecognitionListener {

  import opened Options
  import opened Events
  import opened ErrorMapping
  import opened Matches
  import opened Plugin

  const RESULTS_PROCESSING_FAILED: string := "RESULTS_PROCESSING_FAILED"

  /** The stoppingListening event a current-session finish publishes: none
      when a `stop` already moved the state to STOPPING. */
  function Announcement(w: World, id: int, reason: Reason, errorCode: Option<string>): seq<Event> {
    if w.plugin.state == Stopping then []
    else [ListeningState(StoppingListening, id, reason, errorCode, None)]
  }

  /** `onError`: the error event is published first and unconditionally,
      then the session is finished with a silence or error reason. Only
      finishSession looks at the session id. */
  function OnError(w: World, l: Listener, error: int): (r: World)
    ensures |r.log| > |w.log| && r.log[|w.log|] == ErrorEvent(ErrorCode(error), ErrorText(error), l.sessionId)
    ensures l.sessionId != w.plugin.sessionId ==>
      r == w.(log := w.log + [ErrorEvent(ErrorCode(error), ErrorText(error), l.sessionId)])
    ensures l.sessionId == w.plugin.sessionId ==>
      && r.plugin == w.plugin.(state := Idle, listening := false, readyForNext := false, recognizerLive := false)
      && r.posted == w.posted + [Recreate(l.sessionId, ReasonForError(error), Some(ErrorCode(error)))]
      && r.log == w.log + [ErrorEvent(ErrorCode(error), ErrorText(error), l.sessionId)]
                        + Announcement(w, l.sessionId, ReasonForError(error), Some(ErrorCode(error)))
  {
    var code := ErrorCode(error);
    var reported := w.(log := w.log + [ErrorEvent(code, ErrorText(error), l.sessionId)]);
    FinishSession(reported, l.sessionId, ReasonForError(error), Some(code))
  }

  /** The match list `onResults` hands on: a missing list becomes an empty
      JSON array. */
  function FinalMatches(b: Bundle): seq<string> {
    BuildMatchesWithUnstableText(b).GetOr([])
  }

  /** What `onResults` publishes before finishing: in streaming mode the
      final matches go out as a partial results event (not de-duplicated);
      otherwise they resolve the call, which is not an event. */
  function Streamed(l: Listener, b: Bundle): seq<Event> {
    if l.hasCall && l.partialResults then [PartialResults(FinalMatches(b))] else []
  }

  /** `onResults`: publish, then finish the session with reason `results`,
      or with RESULTS_PROCESSING_FAILED when building the answer threw. A
      stale listener still publishes in streaming mode. */
  function OnResults(w: World, l: Listener, b: Bundle, processingFails: bool): (r: World)
    ensures l.sessionId != w.plugin.sessionId ==>
      && r.plugin == w.plugin && r.posted == w.posted
      && r.log == w.log + (if processingFails then [] else Streamed(l, b))
    ensures l.sessionId == w.plugin.sessionId ==>
      && r.plugin == w.plugin.(state := Idle, listening := false, readyForNext := false, recognizerLive := false)
      && r.posted == w.posted + [if processingFails then Recreate(l.sessionId, Error, Some(RESULTS_PROCESSING_FAILED))
                                 else Recreate(l.sessionId, Results, None)]
      && r.log == w.log + (if processingFails then [] else Streamed(l, b))
                        + (if processingFails then Announcement(w, l.sessionId, Error, Some(RESULTS_PROCESSING_FAILED))
                           else Announcement(w, l.sessionId, Results, None))
  {
    if processingFails then
      FinishSession(w, l.sessionId, Error, Some(RESULTS_PROCESSING_FAILED))
    else
      FinishSession(w.(log := w.log + Streamed(l, b)), l.sessionId, Results, None)
  }

  /** `onPartialResults`: no session check at all. A missing or empty list
      is dropped; a list equal to the last one published is suppressed. */
  function OnPartialResults(w: World, b: Bundle): (r: World)
    ensures r.posted == w.posted
    ensures r.plugin.state == w.plugin.state && r.plugin.sessionId == w.plugin.sessionId
    ensures r != w <==>
      && BuildMatchesWithUnstableText(b).Some?
      && BuildMatchesWithUnstableText(b).value != []
      && BuildMatchesWithUnstableText(b).value != w.plugin.previousPartialResults
    ensures r != w ==>
      && r.plugin == w.plugin.(previousPartialResults := BuildMatchesWithUnstableText(b).value)
      && r.log == w.log + [PartialResults(BuildMatchesWithUnstableText(b).value)]
  {
    match BuildMatchesWithUnstableText(b)
    case None => w
    case Some(matches) =>
      if matches == [] || matches == w.plugin.previousPartialResults then w
      else
        World(
          w.plugin.(previousPartialResults := matches),
          w.log + [PartialResults(matches)],
          w.posted)
  }

  /** `onSegmentResults`: the raw list is passed through; never finishes. */
  function OnSegmentResults(w: World, b: Bundle): (r: World)
    ensures r.plugin == w.plugin && r.posted == w.posted
    ensures b.recognition.None? ==> r.log == w.log
    ensures b.recognition.Some? ==> r.log == w.log + [SegmentResults(b.recognition.value)]
  {
    match b.recognition
    case None => w
    case Some(matches) => w.(log := w.log + [SegmentResults(matches)])
  }

  /** `onEndOfSegmentedSession`: a bare event; never finishes. */
  function OnEndOfSegmentedSession(w: World): (r: World)
    ensures r.plugin == w.plugin && r.posted == w.posted
    ensures r.log == w.log + [EndOfSegmentedSession]
  {
    w.(log := w.log + [EndOfSegmentedSession])
  }
}
