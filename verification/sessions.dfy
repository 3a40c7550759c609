/** Runs of the plugin: user calls, recognizer callbacks and posted
    runnables interleave in any order the environment chooses. Posted
    runnables all go to the main looper, so they run first-in first-out.
    The lemmas here are about whole runs. */
module Sessions {

  import opened Options
  import opened Events
  import opened Matches
  import opened Plugin
  import opened RecognitionListener

  /** How a posted runnable's native calls turned out: whether they
      succeeded, whether a recognizer was already assigned when one of them
      threw, and the exception's message. */
  datatype Outcome = Outcome(succeeded: bool, recognizerHeld: bool, message: string)

  datatype Action =
    | CallStart(available: bool, granted: bool, partialResults: bool)
    | CallStop
    | RunPosted(outcome: Outcome)
    | NativeError(listener: Listener, error: int)
    | NativeResults(listener: Listener, bundle: Bundle, processingFails: bool)
    | NativePartialResults(bundle: Bundle)
    | NativeSegmentResults(bundle: Bundle)
    | NativeEndOfSegmentedSession
  {
    /** A `start` that passes both preconditions. */
    predicate AcceptedStart() {
      CallStart? && available && granted
    }
  }

  /** Runs one posted runnable. */
  function RunTask(w: World, t: Task, o: Outcome): World {
    match t
    case BeginListening(l) =>
      if o.succeeded then BeginListeningSucceeded(w, l)
      else BeginListeningFailed(w, l, o.recognizerHeld, o.message)
    case StopListening => StopListeningRan(w)
    case Recreate(id, reason, code) => RecreateRan(w, id, reason, code, o.succeeded, o.recognizerHeld, o.message)
  }

  function Step(w: World, a: Action): World {
    match a
    case CallStart(available, granted, partial) => Start(w, available, granted, partial)
    case CallStop => Stop(w)
    case RunPosted(o) =>
      if w.posted == [] then w else RunTask(w.(posted := w.posted[1..]), w.posted[0], o)
    case NativeError(l, error) => OnError(w, l, error)
    case NativeResults(l, b, fails) => OnResults(w, l, b, fails)
    case NativePartialResults(b) => OnPartialResults(w, b)
    case NativeSegmentResults(b) => OnSegmentResults(w, b)
    case NativeEndOfSegmentedSession => OnEndOfSegmentedSession(w)
  }

  function Run(w: World, acts: seq<Action>): World
    decreases |acts|
  {
    if acts == [] then w else Run(Step(w, acts[0]), acts[1..])
  }

  /** A run is its first step followed by the rest of the run. */
  lemma RunFirst(w: World, a: Action, rest: seq<Action>)
    ensures Run(w, [a] + rest) == Run(Step(w, a), rest)
  {
    assert ([a] + rest)[1..] == rest;
  }

  /** Running two sequences of actions back to back is running their
      concatenation. */
  lemma {:induction false} RunAppend(w: World, first: seq<Action>, second: seq<Action>)
    ensures Run(w, first + second) == Run(Run(w, first), second)
    decreases |first|
  {
    if first != [] {
      assert (first + second)[1..] == first[1..] + second;
      RunAppend(Step(w, first[0]), first[1..], second);
    } else {
      assert first + second == second;
    }
  }

  function AcceptedStarts(acts: seq<Action>): nat {
    if acts == [] then 0
    else (if acts[0].AcceptedStart() then 1 else 0) + AcceptedStarts(acts[1..])
  }

  // ---------------------------------------------------------------------
  // Session ids and the log

  /** Only an accepted `start` moves the session id, and by exactly one. */
  lemma StepSessionId(w: World, a: Action)
    ensures Step(w, a).plugin.sessionId == w.plugin.sessionId + (if a.AcceptedStart() then 1 else 0)
  {
    if a.RunPosted? && w.posted != [] {
      var rest := w.(posted := w.posted[1..]);
      match w.posted[0]
      case BeginListening(l) =>
      case StopListening =>
      case Recreate(_, _, _) =>
    }
  }

  /** Session ids are monotone: after any run the id has grown by exactly
      the number of accepted starts. */
  lemma {:induction false} RunSessionId(w: World, acts: seq<Action>)
    ensures Run(w, acts).plugin.sessionId == w.plugin.sessionId + AcceptedStarts(acts)
    decreases |acts|
  {
    if acts != [] {
      StepSessionId(w, acts[0]);
      RunSessionId(Step(w, acts[0]), acts[1..]);
    }
  }

  predicate IsPrefix(a: seq<Event>, b: seq<Event>) {
    |a| <= |b| && b[..|a|] == a
  }

  /** The log is append-only. */
  lemma StepExtendsLog(w: World, a: Action)
    ensures IsPrefix(w.log, Step(w, a).log)
  {
    if a.RunPosted? && w.posted != [] {
      match w.posted[0]
      case BeginListening(l) =>
      case StopListening =>
      case Recreate(_, _, _) =>
    }
  }

  lemma {:induction false} RunExtendsLog(w: World, acts: seq<Action>)
    ensures IsPrefix(w.log, Run(w, acts).log)
    decreases |acts|
  {
    if acts != [] {
      StepExtendsLog(w, acts[0]);
      RunExtendsLog(Step(w, acts[0]), acts[1..]);
    }
  }

  // ---------------------------------------------------------------------
  // The run invariant

  /** Some stoppingListening event for session `id` is in the log. */
  predicate Announced(log: seq<Event>, id: int) {
    exists i :: 0 <= i < |log| && log[i].IsPhase(StoppingListening) && log[i].sessionId == id
  }

  /** Every `stopped` event was announced by a stoppingListening event of
      the same session earlier in the log. */
  predicate StoppedAfterStopping(log: seq<Event>) {
    forall j :: 0 <= j < |log| && log[j].IsPhase(StoppedListening) ==> Announced(log[..j], log[j].sessionId)
  }

  /** Every readyForNextSession event is directly followed by the `stopped`
      event of the same session. */
  predicate ReadyThenStopped(log: seq<Event>) {
    forall j :: 0 <= j < |log| && log[j].ReadyForNextSession? ==>
      j + 1 < |log| && log[j + 1].IsPhase(StoppedListening) && log[j + 1].sessionId == log[j].sessionId
  }

  predicate StatusesConsistent(log: seq<Event>) {
    forall j :: 0 <= j < |log| ==> log[j].StatusConsistent()
  }

  /** The facts about the log that every reachable World keeps. */
  predicate LogInv(log: seq<Event>, sessionId: nat) {
    && StartingIds(log) == OneTo(sessionId)
    && StoppedAfterStopping(log)
    && ReadyThenStopped(log)
    && StatusesConsistent(log)
  }

  predicate Inv(w: World) {
    && w.plugin.sessionId >= 0
    && LogInv(w.log, w.plugin.sessionId)
    && (w.plugin.listening ==> w.plugin.state != Idle)
    && (w.plugin.state == Stopping ==> Announced(w.log, w.plugin.sessionId))
    && (forall i :: 0 <= i < |w.posted| && w.posted[i].Recreate? ==> Announced(w.log, w.posted[i].finishedId))
  }

  /** An extension of the log that starts no session, closes only
      sessions already announced in `log`, and is well formed on its own. */
  predicate Quiet(log: seq<Event>, ext: seq<Event>) {
    && (forall k :: 0 <= k < |ext| ==> !ext[k].IsPhase(StartingListening))
    && (forall k :: 0 <= k < |ext| && ext[k].IsPhase(StoppedListening) ==> Announced(log, ext[k].sessionId))
    && ReadyThenStopped(ext)
    && StatusesConsistent(ext)
  }

  lemma AnnouncedGrows(log: seq<Event>, ext: seq<Event>, id: int)
    requires Announced(log, id)
    ensures Announced(log + ext, id)
  {
    var i :| 0 <= i < |log| && log[i].IsPhase(StoppingListening) && log[i].sessionId == id;
    assert (log + ext)[i] == log[i];
  }

  /** Appending a quiet extension keeps the log invariant. */
  lemma QuietKeepsLogInv(log: seq<Event>, ext: seq<Event>, sessionId: nat)
    requires LogInv(log, sessionId) && Quiet(log, ext)
    ensures LogInv(log + ext, sessionId)
  {
    var all := log + ext;
    StartingIdsNoStart(log, ext);
    forall j | 0 <= j < |all| && all[j].IsPhase(StoppedListening)
      ensures Announced(all[..j], all[j].sessionId)
    {
      if j < |log| {
        assert all[..j] == log[..j];
      } else {
        assert all[j] == ext[j - |log|];
        AnnouncedGrows(log, all[|log|..j], all[j].sessionId);
        assert all[..j] == log + all[|log|..j];
      }
    }
    forall j | 0 <= j < |all| && all[j].ReadyForNextSession?
      ensures j + 1 < |all| && all[j + 1].IsPhase(StoppedListening) && all[j + 1].sessionId == all[j].sessionId
    {
      if j < |log| {
        assert all[j] == log[j];
      } else {
        assert all[j] == ext[j - |log|];
      }
    }
    assert StatusesConsistent(all) by {
      forall j | 0 <= j < |all|
        ensures all[j].StatusConsistent()
      {
        if j >= |log| {
          assert all[j] == ext[j - |log|];
        }
      }
    }
  }

  /** Appending a quiet extension keeps the whole invariant. */
  lemma QuietKeepsInv(w: World, ext: seq<Event>)
    requires Inv(w) && Quiet(w.log, ext)
    ensures Inv(w.(log := w.log + ext))
  {
    QuietKeepsLogInv(w.log, ext, w.plugin.sessionId);
    if w.plugin.state == Stopping {
      AnnouncedGrows(w.log, ext, w.plugin.sessionId);
    }
    forall i | 0 <= i < |w.posted| && w.posted[i].Recreate?
      ensures Announced(w.log + ext, w.posted[i].finishedId)
    {
      AnnouncedGrows(w.log, ext, w.posted[i].finishedId);
    }
  }

  lemma SingleQuiet(log: seq<Event>, e: Event)
    requires !e.IsPhase(StartingListening) && !e.IsPhase(StoppedListening) && !e.ReadyForNextSession?
    requires e.StatusConsistent()
    ensures Quiet(log, [e])
  {
  }

  /** The stale-id check and the stoppingListening rule together keep the
      invariant: every recreate posted is for an announced session. */
  lemma FinishKeepsInv(w: World, id: int, reason: Reason, code: Option<string>)
    requires Inv(w)
    ensures Inv(FinishSession(w, id, reason, code))
  {
    if id == w.plugin.sessionId {
      var r := FinishSession(w, id, reason, code);
      var w1 := w;
      if w.plugin.state != Stopping {
        var e := ListeningState(StoppingListening, id, reason, code, None);
        SingleQuiet(w.log, e);
        QuietKeepsInv(w, [e]);
        w1 := w.(log := w.log + [e]);
        assert w1.log[|w.log|] == e;
        assert Announced(w1.log, id);
      }
      assert r == w1.(plugin := r.plugin, posted := w1.posted + [Recreate(id, reason, code)]);
      assert Announced(r.log, id);
      forall i | 0 <= i < |r.posted| && r.posted[i].Recreate?
        ensures Announced(r.log, r.posted[i].finishedId)
      {
        if i < |w.posted| {
          assert r.posted[i] == w1.posted[i];
        }
      }
    }
  }

  lemma StartKeepsInv(w: World, available: bool, granted: bool, partial: bool)
    requires Inv(w)
    ensures Inv(Start(w, available, granted, partial))
  {
    if available && granted {
      var r := Start(w, available, granted, partial);
      var id := w.plugin.sessionId + 1;
      var e := ListeningState(StartingListening, id, UserStart, None, None);
      StartingIdsAppend(w.log, [e]);
      assert StartingIds([e]) == [id] by {
        assert [e][..0] == [];
      }
      assert StartingIds(r.log) == OneTo(id);
      QuietKeepsLogInv(w.log, [], w.plugin.sessionId);
      forall j | 0 <= j < |r.log| && r.log[j].IsPhase(StoppedListening)
        ensures Announced(r.log[..j], r.log[j].sessionId)
      {
        assert r.log[..j] == w.log[..j];
      }
      forall i | 0 <= i < |r.posted| && r.posted[i].Recreate?
        ensures Announced(r.log, r.posted[i].finishedId)
      {
        assert r.posted[i] == w.posted[i];
        AnnouncedGrows(w.log, [e], w.posted[i].finishedId);
      }
      assert StatusesConsistent(r.log) by {
        forall j | 0 <= j < |r.log|
          ensures r.log[j].StatusConsistent()
        {
          if j < |w.log| {
            assert r.log[j] == w.log[j];
          }
        }
      }
    }
  }

  lemma StopKeepsInv(w: World)
    requires Inv(w)
    ensures Inv(Stop(w))
  {
    if w.plugin.state != Idle {
      var e := ListeningState(StoppingListening, w.plugin.sessionId, UserStop, None, None);
      SingleQuiet(w.log, e);
      QuietKeepsInv(w, [e]);
      var r := Stop(w);
      assert r.log[|w.log|] == e;
      forall i | 0 <= i < |r.posted| && r.posted[i].Recreate?
        ensures Announced(r.log, r.posted[i].finishedId)
      {
        assert r.posted[i] == w.posted[i];
      }
    }
  }

  lemma RecreateKeepsInv(w: World, id: int, reason: Reason, code: Option<string>, created: bool, held: bool, message: string)
    requires Inv(w) && Announced(w.log, id)
    ensures Inv(RecreateRan(w, id, reason, code, created, held, message))
  {
    var stopped := StoppedEvent(id, reason, code);
    var first := if created then ReadyForNextSession(id) else ErrorEvent(RECREATE_FAILED, message, id);
    var ext := [first, stopped];
    assert Quiet(w.log, ext);
    QuietKeepsInv(w, ext);
  }

  /** Dropping the head of the posted queue keeps the invariant. */
  lemma PopKeepsInv(w: World)
    requires Inv(w) && w.posted != []
    ensures Inv(w.(posted := w.posted[1..]))
  {
    var r := w.(posted := w.posted[1..]);
    forall i | 0 <= i < |r.posted| && r.posted[i].Recreate?
      ensures Announced(r.log, r.posted[i].finishedId)
    {
      assert r.posted[i] == w.posted[i + 1];
    }
  }

  lemma RunTaskKeepsInv(w: World, t: Task, o: Outcome)
    requires Inv(w)
    requires t.Recreate? ==> Announced(w.log, t.finishedId)
    ensures Inv(RunTask(w, t, o))
  {
    match t
    case BeginListening(l) =>
      if o.succeeded {
        var e := ListeningState(StartedListening, l.sessionId, UserStart, None, Some("started"));
        SingleQuiet(w.log, e);
        QuietKeepsInv(w, [e]);
      } else {
        var e := ErrorEvent(START_FAILED, o.message, l.sessionId);
        SingleQuiet(w.log, e);
        QuietKeepsInv(w, [e]);
        var failed := World(w.plugin.(recognizerLive := o.recognizerHeld), w.log + [e], w.posted);
        FinishKeepsInv(failed, l.sessionId, Error, Some(START_FAILED));
      }
    case StopListening =>
    case Recreate(id, reason, code) =>
      RecreateKeepsInv(w, id, reason, code, o.succeeded, o.recognizerHeld, o.message);
  }

  lemma CallbackKeepsInv(w: World, a: Action)
    requires Inv(w)
    requires a.NativeError? || a.NativeResults? || a.NativePartialResults? || a.NativeSegmentResults? || a.NativeEndOfSegmentedSession?
    ensures Inv(Step(w, a))
  {
    match a
    case NativeError(l, error) =>
      var e := ErrorEvent(ErrorMapping.ErrorCode(error), ErrorMapping.ErrorText(error), l.sessionId);
      SingleQuiet(w.log, e);
      QuietKeepsInv(w, [e]);
      FinishKeepsInv(w.(log := w.log + [e]), l.sessionId, ErrorMapping.ReasonForError(error), Some(ErrorMapping.ErrorCode(error)));
    case NativeResults(l, b, fails) =>
      if fails {
        FinishKeepsInv(w, l.sessionId, Error, Some(RESULTS_PROCESSING_FAILED));
      } else {
        var ext := Streamed(l, b);
        assert Quiet(w.log, ext);
        QuietKeepsInv(w, ext);
        FinishKeepsInv(w.(log := w.log + ext), l.sessionId, Results, None);
      }
    case NativePartialResults(b) =>
      var r := OnPartialResults(w, b);
      if r != w {
        var e := PartialResults(BuildMatchesWithUnstableText(b).value);
        SingleQuiet(w.log, e);
        QuietKeepsInv(w, [e]);
        assert r == w.(log := w.log + [e]).(plugin := r.plugin);
      }
    case NativeSegmentResults(b) =>
      if b.recognition.Some? {
        var e := SegmentResults(b.recognition.value);
        SingleQuiet(w.log, e);
        QuietKeepsInv(w, [e]);
      }
    case NativeEndOfSegmentedSession =>
      SingleQuiet(w.log, EndOfSegmentedSession);
      QuietKeepsInv(w, [EndOfSegmentedSession]);
  }

  /** Every step keeps the invariant. */
  lemma StepKeepsInv(w: World, a: Action)
    requires Inv(w)
    ensures Inv(Step(w, a))
  {
    match a
    case CallStart(available, granted, partial) => StartKeepsInv(w, available, granted, partial);
    case CallStop => StopKeepsInv(w);
    case RunPosted(o) =>
      if w.posted != [] {
        PopKeepsInv(w);
        RunTaskKeepsInv(w.(posted := w.posted[1..]), w.posted[0], o);
      }
    case _ => CallbackKeepsInv(w, a);
  }

  lemma {:induction false} RunKeepsInv(w: World, acts: seq<Action>)
    requires Inv(w)
    ensures Inv(Run(w, acts))
    decreases |acts|
  {
    if acts != [] {
      StepKeepsInv(w, acts[0]);
      RunKeepsInv(Step(w, acts[0]), acts[1..]);
    }
  }

  lemma InitialInv()
    ensures Inv(INITIAL)
  {
  }

  /** Whatever happens, the startingListening events carry the ids
      1, 2, ..., n in this order, n being the current session id: ids are
      consecutive, increasing and never reused. */
  lemma StartingIdsConsecutive(acts: seq<Action>)
    ensures var w := Run(INITIAL, acts);
      w.plugin.sessionId >= 0 && StartingIds(w.log) == OneTo(w.plugin.sessionId)
  {
    InitialInv();
    RunKeepsInv(INITIAL, acts);
  }

  /** Whatever happens, each `stopped` event follows a stoppingListening
      event of its session, each readyForNextSession event is immediately
      followed by its session's `stopped`, and `status` is present exactly on
      `started` and `stopped`. */
  lemma EventOrdering(acts: seq<Action>)
    ensures var log := Run(INITIAL, acts).log;
      StoppedAfterStopping(log) && ReadyThenStopped(log) && StatusesConsistent(log)
  {
    InitialInv();
    RunKeepsInv(INITIAL, acts);
  }

  /** Whatever happens, `listening` is never left set while IDLE. */
  lemma ListeningOnlyWhenActive(acts: seq<Action>)
    ensures var w := Run(INITIAL, acts);
      w.plugin.listening ==> w.plugin.state != Idle
  {
    InitialInv();
    RunKeepsInv(INITIAL, acts);
  }
}
