/**
 * The state machine of the `useRealtimeSession` hook (useRealtimeSession.ts), stated on
 * values: the connection status, the optional vendor session handle, every status
 * notification (`updateStatus`) and every call made on the vendor session, in order.
 * Each operation is a function from the state before to the state after; the hook
 * object in SessionAdapter is proved to follow these functions.
 */
module SessionSpec {

  import opened Wrappers
  import opened JsErrors
  import opened MicPermission

  datatype Status = Disconnected | Connecting | Connected

  /** An opaque reference to one vendor `RealtimeSession` object. */
  datatype Handle = Handle(id: nat)

  /** A client event for the transport: its `type` and, opaque, the rest of the object. */
  datatype ClientEvent = ClientEvent(eventType: string, rest: string)

  const BufferClear := ClientEvent("input_audio_buffer.clear", "")
  const BufferCommit := ClientEvent("input_audio_buffer.commit", "")
  const ResponseCreate := ClientEvent("response.create", "")

  /** A call the hook makes on a vendor session. */
  datatype SessionCall =
    | Open(handle: Handle, apiKey: string)       // session.connect({ apiKey })
    | Close(handle: Handle)                      // session.close()
    | Interrupt(handle: Handle)                  // session.interrupt()
    | Mute(handle: Handle, muted: bool)          // session.mute(m)
    | SendMessage(handle: Handle, text: string)  // session.sendMessage(text)
    | SendEvent(handle: Handle, event: ClientEvent)  // session.transport.sendEvent(ev)

  /** How an operation settles: its promise resolves, or it throws. */
  datatype Outcome = Resolved | Threw(error: JsError)

  /** The settled value of an awaited external step. */
  datatype Settled<T> = Returns(value: T) | Throws(error: JsError)

  /**
   * Everything outside the hook that `connect` consults, fixed for one call: the
   * browser's capabilities, the permission prompt, the caller's `getEphemeralKey`,
   * whether `initialAgents` has a first element, the vendor constructor and
   * `session.connect`.
   */
  datatype Environment = Environment(
    hasWebRtc: bool,
    hasGetUserMedia: bool,
    permission: PermissionResult,
    ephemeralKey: Settled<string>,
    hasRootAgent: bool,
    construction: Settled<Handle>,
    opening: Outcome)

  const WebRtcMissing := PlainError("WebRTC not supported in this browser")
  /** What reading `rootAgent.name` throws when `initialAgents` is empty. */
  const RootAgentMissing := JsError("TypeError", "Cannot read properties of undefined (reading 'name')")
  const NotConnected := PlainError("RealtimeSession not connected")

  datatype State = State(status: Status, session: Option<Handle>, notifications: seq<Status>, calls: seq<SessionCall>)

  /** A freshly mounted hook. */
  const Initial := State(Disconnected, None, [], [])

  /** The result of an operation that may throw. */
  datatype Step = Step(outcome: Outcome, after: State)

  /** The handle `sessionRef.current` is set to by a successful construction, if any. */
  predicate OpenedHandle(calls: seq<SessionCall>, h: Handle) {
    exists j :: 0 <= j < |calls| && calls[j].Open? && calls[j].handle == h
  }

  /** Every call in `calls` addresses a session that an earlier `Open` in the log opened. */
  predicate CallsFollowOpen(calls: seq<SessionCall>) {
    forall i :: 0 <= i < |calls| ==> OpenedHandle(calls[..i + 1], calls[i].handle)
  }

  /**
   * The invariant the hook keeps: the status is the last one notified, `Connected`
   * only with a handle, `Connecting` only without one, and the hook only ever talks
   * to a vendor session after opening it.
   */
  predicate Consistent(s: State) {
    && (if s.notifications == [] then s.status == Disconnected
        else s.notifications[|s.notifications| - 1] == s.status)
    && (s.status == Connected ==> s.session.Some?)
    && (s.status == Connecting ==> s.session.None?)
    && (s.session.Some? ==> OpenedHandle(s.calls, s.session.value))
    && CallsFollowOpen(s.calls)
  }

  /** `updateStatus(st)`: set the status and notify it. */
  function UpdateStatus(s: State, st: Status): (r: State)
    ensures r.status == st && r.notifications == s.notifications + [st]
    ensures r.session == s.session && r.calls == s.calls
  {
    s.(status := st, notifications := s.notifications + [st])
  }

  /** The steps of `connect` reached, as far as the environment decides them. */
  predicate ReachesPermission(env: Environment) {
    env.hasWebRtc
  }

  predicate ReachesKeyFetch(env: Environment) {
    ReachesPermission(env) && RequestPermission(env.hasGetUserMedia, env.permission).None?
  }

  predicate ReachesConstruction(env: Environment) {
    ReachesKeyFetch(env) && env.ephemeralKey.Returns? && env.hasRootAgent
  }

  predicate ReachesOpening(env: Environment) {
    ReachesConstruction(env) && env.construction.Returns?
  }

  /** Appending a call keeps earlier `Open`s visible. */
  lemma OpenedHandleGrows(calls: seq<SessionCall>, extra: seq<SessionCall>, h: Handle)
    requires OpenedHandle(calls, h)
    ensures OpenedHandle(calls + extra, h)
  {
    var j :| 0 <= j < |calls| && calls[j].Open? && calls[j].handle == h;
    assert (calls + extra)[j] == calls[j];
  }

  /** Appending a call to an opened handle, or an `Open`, keeps the log well ordered. */
  lemma AppendFollowsOpen(calls: seq<SessionCall>, c: SessionCall)
    requires CallsFollowOpen(calls)
    requires c.Open? || OpenedHandle(calls, c.handle)
    ensures CallsFollowOpen(calls + [c])
  {
    var calls' := calls + [c];
    forall i | 0 <= i < |calls'|
      ensures OpenedHandle(calls'[..i + 1], calls'[i].handle)
    {
      if i < |calls| {
        assert calls'[..i + 1] == calls[..i + 1];
      } else if c.Open? {
        assert calls'[i] == c;
      } else {
        OpenedHandleGrows(calls, [c], c.handle);
        assert calls'[..i + 1] == calls';
      }
    }
  }

  /**
   * `connect` (lines 111-220), as one atomic step. With a handle already present
   * nothing happens. Otherwise `Connecting` is notified first; a missing WebRTC, a
   * failed permission probe, a missing root agent and a failed construction or
   * `session.connect` notify `Disconnected` and throw; a failed key fetch throws
   * with the status left at `Connecting`; success notifies `Connected` last.
   */
  function Connect(s: State, env: Environment): (r: Step)
    // At most one session: a second connect is a silent no-op.
    ensures s.session.Some? ==> r == Step(Resolved, s)
    // Otherwise `Connecting` is the first notification.
    ensures s.session.None? ==>
              |r.after.notifications| >= |s.notifications| + 1 &&
              r.after.notifications[..|s.notifications| + 1] == s.notifications + [Connecting]
    // Success: notifications end with exactly one `Connected`, the constructed handle is held.
    ensures s.session.None? && r.outcome.Resolved? ==>
              ReachesOpening(env) && env.opening.Resolved? &&
              r.after.notifications == s.notifications + [Connecting, Connected] &&
              r.after.status == Connected && r.after.session == Some(env.construction.value)
    // A key-fetch failure escapes both catch blocks: the status stays `Connecting`.
    ensures s.session.None? && ReachesKeyFetch(env) && env.ephemeralKey.Throws? ==>
              r == Step(Threw(env.ephemeralKey.error), UpdateStatus(s, Connecting))
    // Every other failure notifies `Disconnected` right after `Connecting`.
    ensures s.session.None? && r.outcome.Threw? && !(ReachesKeyFetch(env) && env.ephemeralKey.Throws?) ==>
              r.after.notifications == s.notifications + [Connecting, Disconnected] &&
              r.after.status == Disconnected
    // The thrown errors.
    ensures s.session.None? && !env.hasWebRtc ==> r.outcome == Threw(WebRtcMissing)
    ensures s.session.None? && ReachesPermission(env) && !ReachesKeyFetch(env) ==>
              r.outcome == Threw(PlainError(PermissionMessage(RequestPermission(env.hasGetUserMedia, env.permission).value)))
    ensures s.session.None? && ReachesKeyFetch(env) && env.ephemeralKey.Returns? && !env.hasRootAgent ==>
              r.outcome == Threw(RootAgentMissing)
    ensures s.session.None? && ReachesConstruction(env) && env.construction.Throws? ==>
              r.outcome == Threw(env.construction.error)
    ensures s.session.None? && ReachesOpening(env) && env.opening.Threw? ==> r.outcome == env.opening
    // Resolving without a handle is exactly the path on which every step succeeds.
    ensures s.session.None? ==> (r.outcome.Resolved? <==> ReachesOpening(env) && env.opening.Resolved?)
    // The handle is set exactly when construction succeeded, and a failed opening leaves it set.
    ensures s.session.None? ==>
              (r.after.session.Some? <==> ReachesOpening(env)) &&
              (ReachesOpening(env) ==> r.after.session == Some(env.construction.value))
    // The only vendor call is the opening of the new session, with the fetched key.
    ensures s.session.None? ==>
              r.after.calls == s.calls +
                (if ReachesOpening(env) then [Open(env.construction.value, env.ephemeralKey.value)] else [])
    ensures Consistent(s) ==> Consistent(r.after)
  {
    if s.session.Some? then Step(Resolved, s)
    else
      var connecting := UpdateStatus(s, Connecting);
      if !env.hasWebRtc then
        Step(Threw(WebRtcMissing), UpdateStatus(connecting, Disconnected))
      else match RequestPermission(env.hasGetUserMedia, env.permission)
        case Some(e) =>
          Step(Threw(PlainError(PermissionMessage(e))), UpdateStatus(connecting, Disconnected))
        case None =>
          match env.ephemeralKey
          case Throws(e) => Step(Threw(e), connecting)
          case Returns(key) =>
            if !env.hasRootAgent then
              Step(Threw(RootAgentMissing), UpdateStatus(connecting, Disconnected))
            else match env.construction
              case Throws(e) => Step(Threw(e), UpdateStatus(connecting, Disconnected))
              case Returns(h) =>
                var held := connecting.(session := Some(h), calls := connecting.calls + [Open(h, key)]);
                assert Consistent(s) ==> CallsFollowOpen(held.calls) by {
                  if Consistent(s) { AppendFollowsOpen(s.calls, Open(h, key)); }
                }
                assert OpenedHandle(held.calls, h) by {
                  assert held.calls[|s.calls|] == Open(h, key);
                }
                match env.opening
                case Threw(e) => Step(Threw(e), UpdateStatus(held, Disconnected))
                case Resolved => Step(Resolved, UpdateStatus(held, Connected))
  }

  /** `disconnect` (lines 222-226): close the session if there is one, drop the handle, notify `Disconnected`. */
  function Disconnect(s: State): (r: State)
    ensures r.status == Disconnected && r.session.None?
    ensures r.notifications == s.notifications + [Disconnected]
    ensures r.calls == s.calls + (if s.session.Some? then [Close(s.session.value)] else [])
    ensures Consistent(s) ==> Consistent(r)
  {
    var closed := match s.session
      case Some(h) => s.(calls := s.calls + [Close(h)])
      case None => s;
    assert Consistent(s) && s.session.Some? ==> CallsFollowOpen(closed.calls) by {
      if Consistent(s) && s.session.Some? { AppendFollowsOpen(s.calls, Close(s.session.value)); }
    }
    UpdateStatus(closed.(session := None), Disconnected)
  }

  /** `assertconnected` (lines 228-230). */
  function AssertConnected(s: State): (r: Outcome)
    ensures r.Threw? <==> s.session.None?
    ensures r.Threw? ==> r.error == NotConnected
  {
    if s.session.None? then Threw(NotConnected) else Resolved
  }

  /** Record one call on the current session, when there is one (the `?.` guard). */
  function CallIfOpen(s: State, call: Handle -> SessionCall): (r: State)
    requires forall h :: call(h).handle == h
    ensures r.status == s.status && r.session == s.session && r.notifications == s.notifications
    ensures r.calls == s.calls + (if s.session.Some? then [call(s.session.value)] else [])
    ensures Consistent(s) ==> Consistent(r)
  {
    match s.session
    case None => s
    case Some(h) =>
      assert Consistent(s) ==> CallsFollowOpen(s.calls + [call(h)]) && OpenedHandle(s.calls + [call(h)], h) by {
        if Consistent(s) {
          AppendFollowsOpen(s.calls, call(h));
          OpenedHandleGrows(s.calls, [call(h)], h);
        }
      }
      s.(calls := s.calls + [call(h)])
  }

  /** `sendUserText` (lines 238-241): throw without a session, otherwise forward the text once. */
  function SendUserText(s: State, text: string): (r: Step)
    ensures s.session.None? ==> r == Step(Threw(NotConnected), s)
    ensures s.session.Some? ==>
              r == Step(Resolved, s.(calls := s.calls + [SendMessage(s.session.value, text)]))
    ensures Consistent(s) ==> Consistent(r.after)
  {
    match AssertConnected(s)
    case Threw(e) => Step(Threw(e), s)
    case Resolved => Step(Resolved, CallIfOpen(s, h => SendMessage(h, text)))
  }

  /** `sendEvent` (lines 243-245): forward the event verbatim, or do nothing without a session. */
  function SendEventTo(s: State, ev: ClientEvent): (r: State)
    ensures s.session.None? ==> r == s
    ensures s.session.Some? ==> r == s.(calls := s.calls + [SendEvent(s.session.value, ev)])
    ensures Consistent(s) ==> Consistent(r)
  {
    CallIfOpen(s, h => SendEvent(h, ev))
  }

  /** `mute` (lines 247-249). */
  function MuteSession(s: State, muted: bool): (r: State)
    ensures s.session.None? ==> r == s
    ensures s.session.Some? ==> r == s.(calls := s.calls + [Mute(s.session.value, muted)])
    ensures Consistent(s) ==> Consistent(r)
  {
    CallIfOpen(s, h => Mute(h, muted))
  }

  /** `interrupt` (lines 234-236): safe without a session. */
  function InterruptSession(s: State): (r: State)
    ensures s.session.None? ==> r == s
    ensures s.session.Some? ==> r == s.(calls := s.calls + [Interrupt(s.session.value)])
    ensures Consistent(s) ==> Consistent(r)
  {
    CallIfOpen(s, h => Interrupt(h))
  }

  /** `pushToTalkStart` (lines 251-254): clear the input audio buffer. */
  function PushToTalkStart(s: State): (r: State)
    ensures s.session.None? ==> r == s
    ensures s.session.Some? ==> r == s.(calls := s.calls + [SendEvent(s.session.value, BufferClear)])
    ensures Consistent(s) ==> Consistent(r)
  {
    SendEventTo(s, BufferClear)
  }

  /** `pushToTalkStop` (lines 256-260): commit the buffer, then ask for a response. */
  function PushToTalkStop(s: State): (r: State)
    ensures s.session.None? ==> r == s
    ensures s.session.Some? ==>
              r == s.(calls := s.calls + [SendEvent(s.session.value, BufferCommit), SendEvent(s.session.value, ResponseCreate)])
    ensures Consistent(s) ==> Consistent(r)
  {
    SendEventTo(SendEventTo(s, BufferCommit), ResponseCreate)
  }
}
