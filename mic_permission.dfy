/**
 * The microphone-permission probe of `connect` (useRealtimeSession.ts, lines 130-169):
 * whether a test stream was granted, and the user-facing message thrown when it was not.
 */
module MicPermission {

  import opened Wrappers
  import opened JsErrors

  /** The outcome of `navigator.mediaDevices.getUserMedia(...)` in the browser at hand. */
  datatype PermissionResult = Granted | Rejected(error: JsError)

  /** Thrown by the source itself when `navigator.mediaDevices.getUserMedia` is missing. */
  const GetUserMediaMissing := PlainError("getUserMedia not supported in this browser")

  const Mic := "\U{1F3A4} "
  // The long messages are written in two literals so that the verifier can read their first characters.
  const DeniedMessage := Mic + "Microphone access denied." + " Please click the microphone icon in your browser address bar and allow access, then try again."
  const NoDeviceMessage := Mic + "No microphone found." + " Please connect a microphone and try again."
  const UnsupportedMessage := Mic + "Microphone not supported in this browser." + " Please use Chrome, Firefox, or Safari."
  const GenericPrefix := Mic + "Microphone error: "
  const UnknownError := "Unknown error"

  /**
   * The error the permission probe catches, if any: the missing-API error when
   * `getUserMedia` does not exist, otherwise the browser's rejection.
   */
  function RequestPermission(hasGetUserMedia: bool, result: PermissionResult): (caught: Option<JsError>)
    ensures caught.None? <==> hasGetUserMedia && result.Granted?
    ensures !hasGetUserMedia ==> caught == Some(GetUserMediaMissing)
    ensures hasGetUserMedia && result.Rejected? ==> caught == Some(result.error)
  {
    if !hasGetUserMedia then Some(GetUserMediaMissing)
    else if result.Rejected? then Some(result.error)
    else None
  }

  /** The cause a caught permission error is reported as. */
  datatype Cause = AccessDenied | NoDevice | Unsupported | Other(detail: string)

  /** Classification by the error's `name`; any other name keeps its message, or "Unknown error" when there is none. */
  function CauseOf(e: JsError): (c: Cause)
    ensures c == AccessDenied <==> e.name == "NotAllowedError"
    ensures c == NoDevice <==> e.name == "NotFoundError"
    ensures c == Unsupported <==> e.name == "NotSupportedError"
    ensures c.Other? ==> c.detail == (if e.message == "" then UnknownError else e.message)
    ensures c.Other? ==> c.detail != ""
  {
    if e.name == "NotAllowedError" then AccessDenied
    else if e.name == "NotFoundError" then NoDevice
    else if e.name == "NotSupportedError" then Unsupported
    else Other(if e.message == "" then UnknownError else e.message)
  }

  /** The message for each cause. */
  function MessageFor(c: Cause): string {
    match c
    case AccessDenied => DeniedMessage
    case NoDevice => NoDeviceMessage
    case Unsupported => UnsupportedMessage
    case Other(detail) => GenericPrefix + detail
  }

  /** The message of the `Error` that `connect` throws after a failed permission probe. */
  function PermissionMessage(e: JsError): (m: string)
    ensures e.name == "NotAllowedError" ==> m == DeniedMessage
    ensures e.name == "NotFoundError" ==> m == NoDeviceMessage
    ensures e.name == "NotSupportedError" ==> m == UnsupportedMessage
    ensures CauseOf(e).Other? ==> m == GenericPrefix + (if e.message == "" then UnknownError else e.message)
  {
    MessageFor(CauseOf(e))
  }

  /** The four kinds of message can be told apart: the message determines the cause, detail included. */
  lemma MessageDeterminesCause(c1: Cause, c2: Cause)
    requires MessageFor(c1) == MessageFor(c2)
    ensures c1 == c2
  {
    var m := MessageFor(c1);
    // The characters at indices 2 and 13 tell the fixed messages and the generic prefix apart.
    assert DeniedMessage[2] == 'M' && DeniedMessage[13] == 'a';
    assert NoDeviceMessage[2] == 'N';
    assert UnsupportedMessage[2] == 'M' && UnsupportedMessage[13] == 'n';
    assert GenericPrefix[2] == 'M' && GenericPrefix[13] == 'e';
    if c1.Other? && c2.Other? {
      assert c1.detail == m[|GenericPrefix|..] == c2.detail;
    }
  }

  /** Two permission errors yield the same message only when they have the same cause. */
  lemma PermissionMessageDeterminesCause(e1: JsError, e2: JsError)
    requires PermissionMessage(e1) == PermissionMessage(e2)
    ensures CauseOf(e1) == CauseOf(e2)
  {
    MessageDeterminesCause(CauseOf(e1), CauseOf(e2));
  }

  /** A browser without `getUserMedia` gets the generic message with the missing-API text. */
  lemma MissingGetUserMediaMessage()
    ensures PermissionMessage(GetUserMediaMissing) == GenericPrefix + "getUserMedia not supported in this browser"
  {
  }
}
