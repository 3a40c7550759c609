/** Error/reason mapping of the plugin: `getErrorCode`, `getErrorText`, the
    silence/error classification done in `onError`, and
    `permissionStateValue`. All of them are total, pure functions. */
module ErrorMapping {

  import opened Options
  import opened JavaStrings
  import opened Events

  // The `SpeechRecognizer.ERROR_*` constants as the Android platform defines them.
  const ERROR_NETWORK_TIMEOUT: int := 1
  const ERROR_NETWORK: int := 2
  const ERROR_AUDIO: int := 3
  const ERROR_SERVER: int := 4
  const ERROR_CLIENT: int := 5
  const ERROR_SPEECH_TIMEOUT: int := 6
  const ERROR_NO_MATCH: int := 7
  const ERROR_RECOGNIZER_BUSY: int := 8
  const ERROR_INSUFFICIENT_PERMISSIONS: int := 9

  const UNKNOWN_PREFIX: string := "UNKNOWN_"
  const DEFAULT_ERROR_TEXT: string := "Didn't understand, please try again."

  /** One row of the platform's documented error table. */
  datatype NativeError = NativeError(code: int, name: string, text: string)

  /** The nine documented recognizer errors, ordered by their code: an
      independent, tabular reference for the two switch statements below. */
  const KNOWN_ERRORS: seq<NativeError> := [
    NativeError(1, "NETWORK_TIMEOUT", "Network timeout"),
    NativeError(2, "NETWORK", "Network error"),
    NativeError(3, "AUDIO", "Audio recording error"),
    NativeError(4, "SERVER", "Error from server"),
    NativeError(5, "CLIENT", "Client side error"),
    NativeError(6, "SPEECH_TIMEOUT", "No speech input"),
    NativeError(7, "NO_MATCH", "No match"),
    NativeError(8, "RECOGNIZER_BUSY", "RecognitionService busy"),
    NativeError(9, "INSUFFICIENT_PERMISSIONS", "Insufficient permissions")
  ]

  predicate IsKnown(error: int) {
    1 <= error <= 9
  }

  /** `getErrorCode`: the symbolic code of a native error. */
  function ErrorCode(error: int): (r: string)
    ensures !IsKnown(error) ==> StartsWith(r, UNKNOWN_PREFIX)
    ensures |r| > 0 && (IsKnown(error) <==> r[0] != UNKNOWN_PREFIX[0])
  {
    if error == ERROR_AUDIO then "AUDIO"
    else if error == ERROR_CLIENT then "CLIENT"
    else if error == ERROR_INSUFFICIENT_PERMISSIONS then "INSUFFICIENT_PERMISSIONS"
    else if error == ERROR_NETWORK then "NETWORK"
    else if error == ERROR_NETWORK_TIMEOUT then "NETWORK_TIMEOUT"
    else if error == ERROR_NO_MATCH then "NO_MATCH"
    else if error == ERROR_RECOGNIZER_BUSY then "RECOGNIZER_BUSY"
    else if error == ERROR_SERVER then "SERVER"
    else if error == ERROR_SPEECH_TIMEOUT then "SPEECH_TIMEOUT"
    else
      var r := UNKNOWN_PREFIX + IntToString(error);
      assert r[..|UNKNOWN_PREFIX|] == UNKNOWN_PREFIX;
      r
  }

  /** `getErrorText`: the human-readable message of a native error. */
  function ErrorText(error: int): (r: string)
    ensures r == DEFAULT_ERROR_TEXT <==> !IsKnown(error)
  {
    if error == ERROR_AUDIO then "Audio recording error"
    else if error == ERROR_CLIENT then "Client side error"
    else if error == ERROR_INSUFFICIENT_PERMISSIONS then "Insufficient permissions"
    else if error == ERROR_NETWORK then "Network error"
    else if error == ERROR_NETWORK_TIMEOUT then "Network timeout"
    else if error == ERROR_NO_MATCH then "No match"
    else if error == ERROR_RECOGNIZER_BUSY then "RecognitionService busy"
    else if error == ERROR_SERVER then "Error from server"
    else if error == ERROR_SPEECH_TIMEOUT then "No speech input"
    else DEFAULT_ERROR_TEXT
  }

  /** The reason `onError` hands to finishSession: no-speech and
      speech-timeout are a silence, everything else is an error. */
  function ReasonForError(error: int): (r: Reason)
    ensures r == Silence || r == Error
  {
    if error == ERROR_NO_MATCH || error == ERROR_SPEECH_TIMEOUT then Silence else Error
  }

  /** Both switch statements agree with the documented table on the nine
      known codes, and fall back to `UNKNOWN_<n>` and the generic message on
      every other code. */
  lemma MappingMatchesTable(error: int)
    ensures IsKnown(error) ==>
      && KNOWN_ERRORS[error - 1].code == error
      && ErrorCode(error) == KNOWN_ERRORS[error - 1].name
      && ErrorText(error) == KNOWN_ERRORS[error - 1].text
    ensures !IsKnown(error) ==>
      && ErrorCode(error) == UNKNOWN_PREFIX + IntToString(error)
      && ErrorText(error) == DEFAULT_ERROR_TEXT
  {
  }

  /** Reads a symbolic code back to the native code it came from. */
  function NativeCodeOf(symbolic: string): Option<int> {
    if StartsWith(symbolic, UNKNOWN_PREFIX) then ParseInt(symbolic[|UNKNOWN_PREFIX|..])
    else if symbolic == "NETWORK_TIMEOUT" then Some(ERROR_NETWORK_TIMEOUT)
    else if symbolic == "NETWORK" then Some(ERROR_NETWORK)
    else if symbolic == "AUDIO" then Some(ERROR_AUDIO)
    else if symbolic == "SERVER" then Some(ERROR_SERVER)
    else if symbolic == "CLIENT" then Some(ERROR_CLIENT)
    else if symbolic == "SPEECH_TIMEOUT" then Some(ERROR_SPEECH_TIMEOUT)
    else if symbolic == "NO_MATCH" then Some(ERROR_NO_MATCH)
    else if symbolic == "RECOGNIZER_BUSY" then Some(ERROR_RECOGNIZER_BUSY)
    else if symbolic == "INSUFFICIENT_PERMISSIONS" then Some(ERROR_INSUFFICIENT_PERMISSIONS)
    else None
  }

  lemma UnknownCodeRoundTrip(error: int)
    requires !IsKnown(error)
    ensures NativeCodeOf(ErrorCode(error)) == Some(error)
  {
    var digits := IntToString(error);
    var s := ErrorCode(error);
    assert s == UNKNOWN_PREFIX + digits;
    assert s[|UNKNOWN_PREFIX|..] == digits;
    ParseIntToString(error);
  }

  /** The symbolic code loses nothing: the native code can always be
      recovered from it. */
  lemma ErrorCodeRoundTrip(error: int)
    ensures NativeCodeOf(ErrorCode(error)) == Some(error)
  {
    if !IsKnown(error) {
      UnknownCodeRoundTrip(error);
      return;
    }
    var s := ErrorCode(error);
    DiffersAtStart(s, UNKNOWN_PREFIX);
    if error == 1 {
      assert ErrorCode(error) == "NETWORK_TIMEOUT";
    } else if error == 2 {
      assert ErrorCode(error) == "NETWORK";
    } else if error == 3 {
      assert ErrorCode(error) == "AUDIO";
    } else if error == 4 {
      assert ErrorCode(error) == "SERVER";
    } else if error == 5 {
      assert ErrorCode(error) == "CLIENT";
    } else if error == 6 {
      assert ErrorCode(error) == "SPEECH_TIMEOUT";
    } else if error == 7 {
      assert ErrorCode(error) == "NO_MATCH";
    } else if error == 8 {
      assert ErrorCode(error) == "RECOGNIZER_BUSY";
    } else {
      assert ErrorCode(error) == "INSUFFICIENT_PERMISSIONS";
    }
  }

  /** Distinct native codes get distinct symbolic codes. */
  lemma ErrorCodeInjective(a: int, b: int)
    requires ErrorCode(a) == ErrorCode(b)
    ensures a == b
  {
    ErrorCodeRoundTrip(a);
    ErrorCodeRoundTrip(b);
  }

  /** The classification read off the symbolic code: a session ends in
      silence exactly when its error code is NO_MATCH or SPEECH_TIMEOUT. */
  lemma SilenceIffNoSpeechCode(error: int)
    ensures ReasonForError(error) == Silence <==>
      (ErrorCode(error) == "NO_MATCH" || ErrorCode(error) == "SPEECH_TIMEOUT")
  {
    if !IsKnown(error) {
      var s := ErrorCode(error);
      assert s[0] == 'U';
    }
  }

  /** The unknown codes are exactly those whose message is the generic one. */
  lemma UnknownIffDefaultText(error: int)
    ensures StartsWith(ErrorCode(error), UNKNOWN_PREFIX) <==> ErrorText(error) == DEFAULT_ERROR_TEXT
  {
    if IsKnown(error) {
      assert ErrorCode(error)[0] != UNKNOWN_PREFIX[0];
    }
  }

  /** Capacitor's permission states. */
  datatype PermissionState = Granted | Denied | Prompt | PromptWithRationale

  /** `permissionStateValue`: the string reported to the web layer. */
  function PermissionStateValue(p: PermissionState): (r: string)
    ensures r == "granted" <==> p == Granted
    ensures r == "denied" <==> p == Denied
    ensures r == "prompt" <==> (p == Prompt || p == PromptWithRationale)
  {
    match p
    case Granted => "granted"
    case Denied => "denied"
    case Prompt => "prompt"
    case PromptWithRationale => "prompt"
  }
}
