/**
 * The `useRealtimeSession` hook as an object (useRealtimeSession.ts, lines 26-273):
 * the status and `sessionRef.current` are fields its operations update step by step,
 * and each operation is proved to follow its function in SessionSpec.
 */
module SessionAdapter {

  import opened Wrappers
  import opened JsErrors
  import opened MicPermission
  import opened CodecParam
  import opened SessionSpec

  datatype TrackState = Live | Ended

  /** One track of the microphone test stream. */
  class MediaTrack {
    var readyState: TrackState

    constructor ()
      ensures readyState == Live
    {
      readyState := Live;
    }

    /** `track.stop()`. */
    method Stop()
      modifies this
      ensures readyState == Ended
    {
      readyState := Ended;
    }
  }

  /** `stream.getTracks().forEach(track => track.stop())` (line 148). */
  method StopTracks(tracks: seq<MediaTrack>)
    modifies set t | t in tracks
    ensures forall t :: t in tracks ==> t.readyState == Ended
  {
    var i := 0;
    while i < |tracks|
      invariant 0 <= i <= |tracks|
      invariant forall k :: 0 <= k < i ==> tracks[k].readyState == Ended
    {
      tracks[i].Stop();
      i := i + 1;
    }
  }

  class RealtimeSessionHook {
    /** `codecParamRef.current`, fixed when the hook mounts. */
    const codec: string
    var status: Status
    var session: Option<Handle>
    /** Every status passed to `updateStatus`, in order. */
    var notifications: seq<Status>
    /** Every call made on a vendor session, in order. */
    var calls: seq<SessionCall>

    function Snapshot(): State
      reads this
    {
      State(status, session, notifications, calls)
    }

    ghost predicate Valid()
      reads this
    {
      Consistent(Snapshot())
    }

    /** Mounting the hook: disconnected, no session, nothing notified or called. */
    constructor (hasWindow: bool, codecQuery: Option<string>)
      ensures Valid() && Snapshot() == Initial
      ensures codec == SelectCodec(hasWindow, codecQuery)
    {
      codec := SelectCodec(hasWindow, codecQuery);
      status := Disconnected;
      session := None;
      notifications := [];
      calls := [];
    }

    /** `updateStatus` (lines 33-40): set the status and notify the listeners. */
    method UpdateStatus(st: Status)
      modifies this
      ensures Snapshot() == SessionSpec.UpdateStatus(old(Snapshot()), st)
    {
      status := st;
      notifications := notifications + [st];
    }

    /**
     * `connect` (lines 111-220). The test stream's tracks are all stopped exactly when
     * the permission probe succeeded; otherwise they are left as they were.
     */
    method Connect(env: Environment, tracks: seq<MediaTrack>) returns (outcome: Outcome)
      requires Valid()
      modifies this, set t | t in tracks
      ensures Step(outcome, Snapshot()) == SessionSpec.Connect(old(Snapshot()), env)
      ensures Valid()
      ensures old(session).None? && ReachesKeyFetch(env) ==> forall t :: t in tracks ==> t.readyState == Ended
      ensures !(old(session).None? && ReachesKeyFetch(env)) ==>
                forall t :: t in tracks ==> t.readyState == old(t.readyState)
    {
      if session.Some? {
        return Resolved;
      }
      UpdateStatus(Connecting);
      if !env.hasWebRtc {
        UpdateStatus(Disconnected);
        return Threw(WebRtcMissing);
      }
      var caught: Option<JsError> := None;
      if !env.hasGetUserMedia {
        caught := Some(GetUserMediaMissing);
      } else if env.permission.Rejected? {
        caught := Some(env.permission.error);
      } else {
        StopTracks(tracks);
      }
      if caught.Some? {
        UpdateStatus(Disconnected);
        return Threw(PlainError(PermissionMessage(caught.value)));
      }
      if env.ephemeralKey.Throws? {
        return Threw(env.ephemeralKey.error);
      }
      var key := env.ephemeralKey.value;
      if !env.hasRootAgent {
        UpdateStatus(Disconnected);
        return Threw(RootAgentMissing);
      }
      if env.construction.Throws? {
        UpdateStatus(Disconnected);
        return Threw(env.construction.error);
      }
      var h := env.construction.value;
      session := Some(h);
      calls := calls + [Open(h, key)];
      if env.opening.Threw? {
        UpdateStatus(Disconnected);
        return env.opening;
      }
      UpdateStatus(Connected);
      outcome := Resolved;
    }

    /** `disconnect` (lines 222-226). */
    method Disconnect()
      requires Valid()
      modifies this
      ensures Snapshot() == SessionSpec.Disconnect(old(Snapshot()))
      ensures Valid()
    {
      if session.Some? {
        calls := calls + [Close(session.value)];
      }
      session := None;
      UpdateStatus(Disconnected);
    }

    /** `assertconnected` (lines 228-230). */
    method AssertConnected() returns (outcome: Outcome)
      ensures outcome.Threw? <==> session.None?
      ensures outcome.Threw? ==> outcome.error == NotConnected
    {
      if session.None? {
        return Threw(NotConnected);
      }
      return Resolved;
    }

    /** `interrupt` (lines 234-236). */
    method Interrupt()
      requires Valid()
      modifies this
      ensures Snapshot() == InterruptSession(old(Snapshot()))
      ensures Valid()
    {
      if session.Some? {
        calls := calls + [SessionCall.Interrupt(session.value)];
      }
    }

    /** `sendUserText` (lines 238-241). */
    method SendUserText(text: string) returns (outcome: Outcome)
      requires Valid()
      modifies this
      ensures Step(outcome, Snapshot()) == SessionSpec.SendUserText(old(Snapshot()), text)
      ensures Valid()
    {
      outcome := AssertConnected();
      if outcome.Threw? {
        return;
      }
      calls := calls + [SendMessage(session.value, text)];
    }

    /** `sendEvent` (lines 243-245). */
    method SendEvent(ev: ClientEvent)
      requires Valid()
      modifies this
      ensures Snapshot() == SendEventTo(old(Snapshot()), ev)
      ensures Valid()
    {
      if session.Some? {
        calls := calls + [SessionCall.SendEvent(session.value, ev)];
      }
    }

    /** `mute` (lines 247-249). */
    method Mute(muted: bool)
      requires Valid()
      modifies this
      ensures Snapshot() == MuteSession(old(Snapshot()), muted)
      ensures Valid()
    {
      if session.Some? {
        calls := calls + [SessionCall.Mute(session.value, muted)];
      }
    }

    /** `pushToTalkStart` (lines 251-254). */
    method PushToTalkStart()
      requires Valid()
      modifies this
      ensures Snapshot() == SessionSpec.PushToTalkStart(old(Snapshot()))
      ensures Valid()
    {
      if session.None? {
        return;
      }
      calls := calls + [SessionCall.SendEvent(session.value, BufferClear)];
    }

    /** `pushToTalkStop` (lines 256-260). */
    method PushToTalkStop()
      requires Valid()
      modifies this
      ensures Snapshot() == SessionSpec.PushToTalkStop(old(Snapshot()))
      ensures Valid()
    {
      if session.None? {
        return;
      }
      calls := calls + [SessionCall.SendEvent(session.value, BufferCommit)];
      calls := calls + [SessionCall.SendEvent(session.value, ResponseCreate)];
    }
  }
}
