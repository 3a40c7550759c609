# Speech-recognition session controller, modelled in Dafny

This project models the Android side of the Capacitor speech-recognition
plugin (`SpeechRecognitionPlugin.java`). The model covers its session
controller and the pure helpers that controller relies on.

The controller is a small state machine with four states: IDLE, STARTING,
STARTED and STOPPING. It has a session counter that only grows. A session
closes in two phases: `finishSession` first tears the recognizer down, then
a posted runnable recreates it and publishes `readyForNextSession` and
`stopped`. Every native callback carries the session id that its listener
captured when it was built. Only `finishSession` compares that id with the
current one.

The model is a sequential transition system:

- `Plugin.World` holds the plugin's fields: `state`, `sessionId`,
  `listening`, `readyForNext`, `previousPartialResults`, and
  `recognizerLive`, which stands for `speechRecognizer != null`.
- Next to the fields, a `World` has an append-only event log. Each
  `notifyListeners` call adds one entry to it.
- A `World` also has the queue of runnables posted to the main looper that
  have not run yet.
- Every entry point, native callback and posted runnable is one pure
  function from a `World` to a `World`.
- `Sessions.Step` and `Sessions.Run` let user calls, callbacks and posted
  runnables interleave in any order.
- Posted runnables run first-in first-out. `WebView.post` and
  `Handler(mainLooper).post` both queue on the main looper.
- The lock is not modelled as concurrency. Each step runs as one atomic
  block, which is coarser than the code. The lock guards only parts of
  some steps. `onError` and `onResults` publish before `finishSession`
  takes the lock. `finishSession` releases it before posting the
  recreate. The recreate runnable holds it only around
  `readyForNext = true` and publishes outside it. `start` and `stop` run
  off the main thread, so in the code they can interleave inside those
  unguarded parts. The model does not cover that (see "## Left out").

Modules (one file each):

- `Options`: the Option type.
- `JavaStrings`: `trim`, `endsWith` and `Integer.toString`.
- `Events`: the event kinds and their fields.
- `ErrorMapping`: `getErrorCode`, `getErrorText`, the silence/error
  classification and `permissionStateValue`.
- `Matches`: `buildMatchesWithUnstableText`.
- `Plugin`: the controller steps.
- `RecognitionListener`: the listener callbacks.
- `Sessions`: runs and the run invariant.
- `Scenarios`: concrete runs.

The native error constants are not spelled out in the source. They are
taken from the Android platform: NETWORK_TIMEOUT=1, NETWORK=2, AUDIO=3,
SERVER=4, CLIENT=5, SPEECH_TIMEOUT=6, NO_MATCH=7, RECOGNIZER_BUSY=8,
INSUFFICIENT_PERMISSIONS=9.

## Design intent versus code

The source's comments promise a `started` signal even during silence
(lines 291-292) and that errors are never swallowed (line 515). They
also say that only `onResults` or `onError` finishes a session, never
the end of speech (line 502).
The code keeps those promises, and in places it does more or less than a
reader of them would expect. The model follows the code. Each point below
is proved about the model.

- No stop deadline. `stop` publishes `stoppingListening` and posts a
  runnable that only calls the recognizer's `stopListening`. No forced
  finish follows (`Plugin.Stop`, `Plugin.StopListeningRan`).
- `isListening` reports the `listening` flag, not `state != IDLE`.
  Right after `start` the state is STARTING while the flag is still false
  (`Scenarios.ListeningFlagLagsState`).
- A stale callback is not silent. `onError` publishes its error event
  before `finishSession` drops the stale id. `onResults` in streaming mode
  publishes the matches first (`Scenarios.StaleCallbacksStillPublish`).
  `onPartialResults`, `onSegmentResults` and `onEndOfSegmentedSession`
  have no session check at all.
- A session can close twice. A second finish for the still-current id is
  not ignored once the state is IDLE. It publishes `stoppingListening` again
  and a second `stopped` (`Scenarios.SecondFinishClosesAgain`).
- A `stop` during STARTING can be overwritten. The start runnable runs
  later, sets STARTED and publishes `started` after `stoppingListening`
  (`Scenarios.StopDuringStartingIsOverwritten`).
- The partial-result de-duplication memory is never cleared between
  sessions (`Scenarios.PartialMemorySurvivesSessions`).

## Model

| member | source | states |
|---|---|---|
| Plugin.IsListening | android/src/main/java/app/capgo/speechrecognition/SpeechRecognitionPlugin.java:184-187 | `isListening` reports the `listening` flag, not `state != IDLE`. The two differ right after `start` (see `Scenarios.ListeningFlagLagsState`). |
| Plugin.Start | android/src/main/java/app/capgo/speechrecognition/SpeechRecognitionPlugin.java:80-131 | If recognition is unavailable or permission is missing, nothing changes: no state, id, event or posted work. Otherwise the id grows by exactly one, the state becomes STARTING, and one startingListening event with the new id and reason userStart is published. The start runnable is posted with a listener that captures the new id. |
| Plugin.Stop | android/src/main/java/app/capgo/speechrecognition/SpeechRecognitionPlugin.java:134-162 | While IDLE nothing changes and nothing is published. Otherwise the state becomes STOPPING and exactly one stoppingListening event is published with the current id and reason userStop. Only the stopListening runnable is posted: no deadline, no finish. |
| Plugin.FinishSession | android/src/main/java/app/capgo/speechrecognition/SpeechRecognitionPlugin.java:358-400 | A finish for any id other than the current one leaves fields, log and posted queue unchanged, so no recreate is scheduled. For the current id, stoppingListening (with its errorCode, if any) is published exactly when the state was not already STOPPING. The result is always IDLE, not listening, not ready, with no live recognizer. One recreate runnable is posted. |
| Plugin.BeginListeningSucceeded | android/src/main/java/app/capgo/speechrecognition/SpeechRecognitionPlugin.java:273-304 | The recognizer is live and listening, and the state becomes STARTED with no check of the captured id. `started` is published with the captured id, reason userStart and status "started". |
| Plugin.BeginListeningFailed | android/src/main/java/app/capgo/speechrecognition/SpeechRecognitionPlugin.java:305-314 | START_FAILED is published first, with the captured id. The session is then finished with reason error and errorCode START_FAILED. For a stale id nothing else happens. For the current id the stoppingListening rule applies and a recreate is posted. |
| Plugin.StopListeningRan | android/src/main/java/app/capgo/speechrecognition/SpeechRecognitionPlugin.java:322-339 | Clears `listening` and touches nothing else. The state stays as it is and nothing is published. |
| Plugin.RecreateRan | android/src/main/java/app/capgo/speechrecognition/SpeechRecognitionPlugin.java:400-437 | On success the plugin becomes ready with a live recognizer, and publishes readyForNextSession(finishedId) and then stopped(finishedId, reason, errorCode, status "stopped"). On failure it publishes RECREATE_FAILED and then the same stopped event. A recognizer assigned before the throw stays live, and nothing else changes. |
| RecognitionListener.OnError | android/src/main/java/app/capgo/speechrecognition/SpeechRecognitionPlugin.java:506-536 | The error event (symbolic code, message, listener id) is always published first. For a stale listener that is the only change. For the current one the session finishes with the classified reason and the symbolic code as errorCode. |
| RecognitionListener.OnResults | android/src/main/java/app/capgo/speechrecognition/SpeechRecognitionPlugin.java:539-569 | In streaming mode with a call attached, the merged matches are published first. A stale listener changes nothing else. A current one finishes with reason results, or with error and RESULTS_PROCESSING_FAILED when building the answer threw. |
| RecognitionListener.OnPartialResults | android/src/main/java/app/capgo/speechrecognition/SpeechRecognitionPlugin.java:572-590 | Publishes exactly when the merged list is present, non-empty and different from the last one published. It then remembers that list. State, id and posted queue are never touched. |
| RecognitionListener.OnSegmentResults | android/src/main/java/app/capgo/speechrecognition/SpeechRecognitionPlugin.java:624-635 | Passes a present raw match list through as a segment event. The fields and the posted queue are never touched. |
| RecognitionListener.OnEndOfSegmentedSession | android/src/main/java/app/capgo/speechrecognition/SpeechRecognitionPlugin.java:638-641 | Publishes one end-of-segment event and changes nothing else. |
| ErrorMapping.ErrorCode | android/src/main/java/app/capgo/speechrecognition/SpeechRecognitionPlugin.java:440-463 | Total. Exactly the unknown codes produce a symbolic code starting with `UNKNOWN_`. None of the nine known names starts like one. |
| ErrorMapping.ErrorText | android/src/main/java/app/capgo/speechrecognition/SpeechRecognitionPlugin.java:647-670 | Total. The generic "Didn't understand, please try again." is returned exactly for the codes outside the nine known ones. |
| ErrorMapping.MappingMatchesTable | android/src/main/java/app/capgo/speechrecognition/SpeechRecognitionPlugin.java:440-462 | On codes 1..9 both switches agree with the platform's documented table of names and messages. Any other n maps to "UNKNOWN_" + n and the generic message. |
| ErrorMapping.ErrorCodeRoundTrip | android/src/main/java/app/capgo/speechrecognition/SpeechRecognitionPlugin.java:460-461 | The native code can be read back from its symbolic code, including the decimal tail of `UNKNOWN_<n>` for negative n. |
| ErrorMapping.ErrorCodeInjective | android/src/main/java/app/capgo/speechrecognition/SpeechRecognitionPlugin.java:440-463 | Distinct native codes never share a symbolic code. |
| ErrorMapping.ReasonForError | android/src/main/java/app/capgo/speechrecognition/SpeechRecognitionPlugin.java:523-528 | The reason handed to finishSession is always silence or error. |
| ErrorMapping.SilenceIffNoSpeechCode | android/src/main/java/app/capgo/speechrecognition/SpeechRecognitionPlugin.java:523-531 | The reason is silence exactly when the symbolic code is NO_MATCH or SPEECH_TIMEOUT. Every other code, unknown ones included, gives error. |
| ErrorMapping.UnknownIffDefaultText | android/src/main/java/app/capgo/speechrecognition/SpeechRecognitionPlugin.java:511-512 | The error event's code is `UNKNOWN_…` exactly when its message is the generic one. |
| ErrorMapping.PermissionStateValue | android/src/main/java/app/capgo/speechrecognition/SpeechRecognitionPlugin.java:345-356 | "granted" exactly for GRANTED and "denied" exactly for DENIED. Both prompt states report "prompt". |
| Matches.MergeUnstable | android/src/main/java/app/capgo/speechrecognition/SpeechRecognitionPlugin.java:598-618 | Keeps the length and every element after the first. The list is returned unchanged when it is empty, when the unstable text is absent or blank, or when the trimmed first match equals the trimmed unstable text or ends with a blank plus it. Otherwise element 0 becomes trim(first) + " " + trim(unstable). |
| Matches.BuildMatchesWithUnstableText | android/src/main/java/app/capgo/speechrecognition/SpeechRecognitionPlugin.java:592-596 | A missing match list stays missing. A present one is merged. |
| Matches.MergeChangesIff | android/src/main/java/app/capgo/speechrecognition/SpeechRecognitionPlugin.java:611-617 | The list changes exactly when none of the keep conditions holds: a merged first match never equals the original. |
| Matches.MergeIdempotent | android/src/main/java/app/capgo/speechrecognition/SpeechRecognitionPlugin.java:592-621 | Folding in the same unstable text a second time changes nothing. |
| Matches.MergedFirstShowsUnstable | android/src/main/java/app/capgo/speechrecognition/SpeechRecognitionPlugin.java:611-616 | A merged first match already shows the unstable text, in the sense the duplicate check uses. |
| JavaStrings.Trim | android/src/main/java/app/capgo/speechrecognition/SpeechRecognitionPlugin.java:600 | The result has no character ≤ U+0020 at either end and is no longer than the input. |
| JavaStrings.TrimRemovesPadding | android/src/main/java/app/capgo/speechrecognition/SpeechRecognitionPlugin.java:610 | Any padding of characters ≤ U+0020 around a trimmed core trims back to exactly that core. This determines `trim` completely. |
| JavaStrings.TrimIdempotent | android/src/main/java/app/capgo/speechrecognition/SpeechRecognitionPlugin.java:600-610 | Trimming twice is trimming once. |
| JavaStrings.ParseIntToString | android/src/main/java/app/capgo/speechrecognition/SpeechRecognitionPlugin.java:461 | The decimal rendering of any integer reads back to that integer. |
| Sessions.RunSessionId | android/src/main/java/app/capgo/speechrecognition/SpeechRecognitionPlugin.java:95-98 | Over any run the session id grows by exactly the number of accepted starts and never moves otherwise. |
| Sessions.StepSessionId | android/src/main/java/app/capgo/speechrecognition/SpeechRecognitionPlugin.java:96 | Only an accepted start changes the session id, and it adds one. |
| Sessions.RunExtendsLog | android/src/main/java/app/capgo/speechrecognition/SpeechRecognitionPlugin.java:105 | The event log only grows: every earlier log is a prefix of every later one. |
| Sessions.StartingIdsConsecutive | android/src/main/java/app/capgo/speechrecognition/SpeechRecognitionPlugin.java:95-105 | From the constructed plugin, whatever happens, the startingListening events carry exactly the ids 1, 2, …, n in order, where n is the current id. |
| Sessions.EventOrdering | android/src/main/java/app/capgo/speechrecognition/SpeechRecognitionPlugin.java:369-435 | Whatever happens, three things hold. Every `stopped` follows a stoppingListening of the same session. Every readyForNextSession is immediately followed by its session's `stopped`. `status` is present exactly on `started` and `stopped`. |
| Sessions.ListeningOnlyWhenActive | android/src/main/java/app/capgo/speechrecognition/SpeechRecognitionPlugin.java:289-293 | Whatever happens, `listening` is never set while the state is IDLE. |
| Sessions.StepKeepsInv | android/src/main/java/app/capgo/speechrecognition/SpeechRecognitionPlugin.java:361-394 | Every step keeps the run invariant. In particular, every posted recreate is for a session whose stop was already announced, because a finish that skips stoppingListening only happens in STOPPING. |
| Scenarios.SilenceRunWorld | android/src/main/java/app/capgo/speechrecognition/SpeechRecognitionPlugin.java:391-416 | After a session ended by NO_MATCH and a successful recreate, the plugin is IDLE, ready, holds a live recognizer, has no work left to run, and keeps session id 1. |
| Scenarios.SilenceScenario | android/src/main/java/app/capgo/speechrecognition/SpeechRecognitionPlugin.java:506-531 | A session ended by NO_MATCH publishes, in order: startingListening, started, the NO_MATCH error, stoppingListening (silence), readyForNextSession, stopped (silence). |
| Scenarios.StopDuringStartingIsOverwritten | android/src/main/java/app/capgo/speechrecognition/SpeechRecognitionPlugin.java:293-299 | A stop before the start runnable runs is followed by `started` and the state STARTED. |
| Scenarios.SecondFinishClosesAgain | android/src/main/java/app/capgo/speechrecognition/SpeechRecognitionPlugin.java:361-394 | A second error for the still-current session publishes stoppingListening again and a second `stopped` for the same id. |
| Scenarios.ListeningFlagLagsState | android/src/main/java/app/capgo/speechrecognition/SpeechRecognitionPlugin.java:185-187 | After `start` the state is STARTING while `isListening` is still false. |
| Scenarios.StaleCallbacksStillPublish | android/src/main/java/app/capgo/speechrecognition/SpeechRecognitionPlugin.java:516-520 | A superseded listener's error is still published, and so are its streamed final matches. Fields and posted work stay unchanged. |
| Scenarios.StopWhileIdleIsIdempotent | android/src/main/java/app/capgo/speechrecognition/SpeechRecognitionPlugin.java:139-143 | Repeated stops while IDLE change nothing and publish nothing. |
| Scenarios.PartialResultsDeduplicated | android/src/main/java/app/capgo/speechrecognition/SpeechRecognitionPlugin.java:580-586 | The same partial results delivered twice are published once. |
| Scenarios.PartialMemorySurvivesSessions | android/src/main/java/app/capgo/speechrecognition/SpeechRecognitionPlugin.java:53 | Neither a finish nor a new start clears the de-duplication memory. A new session's first partial result equal to the last one published is suppressed. |

## Left out

- Integer width. `sessionId` is a Java `long` (line 57), incremented by
  `sessionId++` (line 96) and captured as a `long` by each listener. The
  model uses unbounded integers, so `Sessions.RunSessionId` and
  `Sessions.StartingIdsConsecutive` hold in Java only while fewer than
  `Long.MAX_VALUE` starts have been accepted. Beyond that the id wraps to
  negative values.
- Sessions.EventOrdering: "every readyForNextSession is immediately
  followed by its `stopped`" relies on the recreate runnable being one
  step. In the code it publishes the two events outside the lock, so a
  `start` on another thread can publish startingListening in between.
  Likewise, `finishSession` posts the recreate after releasing the lock,
  so in the code a later start's runnable can be queued ahead of it. The
  model posts the recreate within the finishing step, so it stays first.
- Real concurrency. The `ReentrantLock` and the `post` calls are explicit
  sequential steps. Posted runnables run in FIFO order, and user calls and
  callbacks interleave with them freely.
- The native `SpeechRecognizer`. It is reduced to the `recognizerLive`
  flag. Create and start outcomes are step parameters, and an exception's
  message is a plain string parameter (a null message is not modelled).
- The listener the recreate runnable installs is not kept in the state.
  It captures whatever id is current when the runnable runs. Callbacks take
  their listener as a parameter, so a callback from it is still covered.
- `stopListening` on a null recognizer, which would throw on the main
  thread, is not modelled.
- Intent and option marshalling in `beginListening` is platform encoding
  with no stateable logic.
- The popup path (`startActivityForResult`, `listeningResult`) is an
  Activity round-trip. `start` is modelled on the inline path only.
- `getSupportedLanguages` and its broadcast receiver are I/O.
- Permission plumbing (`requestPermissions`, `permissionsCallback`,
  `checkPermissions`, `available`, `getPluginVersion`) is thin framework
  glue. The permission and availability checks of `start` are boolean
  parameters.
- `load()` is a framework hook. Before any session the model starts with
  no recognizer.
- `PluginCall` resolve and reject, JSON serialisation and logging are not
  modelled. Only event kinds and fields are kept, so the synchronous
  rejection codes of `start` do not appear.
- `onReadyForSpeech`, `onBeginningOfSpeech`, `onEndOfSpeech`,
  `onRmsChanged`, `onBufferReceived` and `onEvent` do nothing observable.
- A `null` element inside the match list (the null check on the first
  match) is not modelled. Match lists are sequences of strings, and a
  missing list is an absent option.
- RecognitionListener.OnResults: an exception thrown after the streamed
  event was published is not modelled. The failure flag stands for a throw
  before anything is published.
