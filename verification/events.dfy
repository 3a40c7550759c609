/** The events the plugin publishes through `notifyListeners`, kept as
    tagged values with only the fields the payloads carry. */
module Events {

  import opened Options

  /** The `state` field of a listeningState event. */
  datatype Phase = StartingListening | StartedListening | StoppingListening | StoppedListening

  /** The `reason` field of a listeningState event. */
  datatype Reason = UserStart | UserStop | Results | Silence | Error

  datatype Event =
    | ListeningState(phase: Phase, sessionId: int, reason: Reason, errorCode: Option<string>, status: Option<string>)
    | ErrorEvent(code: string, message: string, sessionId: int)
    | ReadyForNextSession(sessionId: int)
    | PartialResults(matches: seq<string>)
    | SegmentResults(matches: seq<string>)
    | EndOfSegmentedSession
  {
    predicate IsPhase(p: Phase) {
      ListeningState? && phase == p
    }

    /** The backward-compatible `status` field is present on `started` and
        `stopped` only, and then repeats the state. */
    predicate StatusConsistent() {
      ListeningState? ==>
        match phase
        case StartedListening => status == Some("started")
        case StoppedListening => status == Some("stopped")
        case _ => status == None
    }
  }

  /** The session ids of the startingListening events, in log order. */
  function StartingIds(log: seq<Event>): (ids: seq<int>)
    ensures |ids| <= |log|
  {
    if log == [] then []
    else
      var e := log[|log| - 1];
      StartingIds(log[..|log| - 1]) + (if e.IsPhase(StartingListening) then [e.sessionId] else [])
  }

  lemma {:induction false} StartingIdsAppend(a: seq<Event>, b: seq<Event>)
    ensures StartingIds(a + b) == StartingIds(a) + StartingIds(b)
    decreases |b|
  {
    if b == [] {
      assert a + b == a;
    } else {
      var b' := b[..|b| - 1];
      assert (a + b)[..|a + b| - 1] == a + b';
      assert (a + b)[|a + b| - 1] == b[|b| - 1];
      StartingIdsAppend(a, b');
    }
  }

  /** Events that are not startingListening leave StartingIds alone. */
  lemma {:induction false} StartingIdsNoStart(a: seq<Event>, b: seq<Event>)
    requires forall i :: 0 <= i < |b| ==> !b[i].IsPhase(StartingListening)
    ensures StartingIds(a + b) == StartingIds(a)
    decreases |b|
  {
    if b == [] {
      assert a + b == a;
    } else {
      var b' := b[..|b| - 1];
      assert (a + b)[..|a + b| - 1] == a + b';
      assert (a + b)[|a + b| - 1] == b[|b| - 1];
      StartingIdsNoStart(a, b');
    }
  }

  /** The ids 1, 2, ..., n. */
  function OneTo(n: nat): (r: seq<int>)
    ensures |r| == n
    ensures forall i :: 0 <= i < n ==> r[i] == i + 1
  {
    if n == 0 then [] else OneTo(n - 1) + [n]
  }
}
