/**
 * Properties of the hook over several calls: the invariant holds after any sequence
 * of operations, the logs only grow, a second `disconnect` closes nothing and only
 * notifies `Disconnected` once more, and the two places
 * where `connect` does not roll back (a failed key fetch, a failed `session.connect`).
 */
module SessionProperties {

  import opened Wrappers
  import opened JsErrors
  import opened SessionSpec

  /** One call on the hook's public surface. */
  datatype Op =
    | ConnectOp(env: Environment)
    | DisconnectOp
    | SendUserTextOp(text: string)
    | SendEventOp(event: ClientEvent)
    | MuteOp(muted: bool)
    | InterruptOp
    | PushToTalkStartOp
    | PushToTalkStopOp

  /** The state after one call, whether it resolved or threw. */
  function Apply(s: State, op: Op): State {
    match op
    case ConnectOp(env) => Connect(s, env).after
    case DisconnectOp => Disconnect(s)
    case SendUserTextOp(text) => SendUserText(s, text).after
    case SendEventOp(ev) => SendEventTo(s, ev)
    case MuteOp(m) => MuteSession(s, m)
    case InterruptOp => InterruptSession(s)
    case PushToTalkStartOp => PushToTalkStart(s)
    case PushToTalkStopOp => PushToTalkStop(s)
  }

  /** The state after the calls `ops`, one after the other. */
  function Run(s: State, ops: seq<Op>): State
    decreases |ops|
  {
    if ops == [] then s else Run(Apply(s, ops[0]), ops[1..])
  }

  /** Whatever the calls and however they settle, the hook stays consistent. */
  lemma {:induction false} RunKeepsConsistent(s: State, ops: seq<Op>)
    requires Consistent(s)
    decreases |ops|
    ensures Consistent(Run(s, ops))
  {
    if ops != [] {
      var s1 := Apply(s, ops[0]);
      assert Consistent(s1);
      RunKeepsConsistent(s1, ops[1..]);
    }
  }

  /** From mount on, the hook is consistent: at most one session, `Connected` only with one. */
  lemma ReachableIsConsistent(ops: seq<Op>)
    ensures Consistent(Run(Initial, ops))
    ensures Run(Initial, ops).status == Connected ==> Run(Initial, ops).session.Some?
  {
    RunKeepsConsistent(Initial, ops);
  }

  /** Notifications and vendor calls are only ever appended, never rewritten. */
  lemma {:induction false} RunOnlyAppends(s: State, ops: seq<Op>)
    decreases |ops|
    ensures s.notifications <= Run(s, ops).notifications
    ensures s.calls <= Run(s, ops).calls
  {
    if ops != [] {
      var s1 := Apply(s, ops[0]);
      assert s.notifications <= s1.notifications && s.calls <= s1.calls;
      RunOnlyAppends(s1, ops[1..]);
    }
  }

  /** A second `disconnect` closes nothing and changes nothing but one more `Disconnected` notification. */
  lemma DisconnectTwice(s: State)
    ensures Disconnect(Disconnect(s)) ==
              Disconnect(s).(notifications := Disconnect(s).notifications + [Disconnected])
  {
  }

  /** After a successful connect and a disconnect, the session was opened once and closed once. */
  lemma ConnectThenDisconnect(env: Environment)
    requires ReachesOpening(env) && env.opening.Resolved?
    ensures var h := env.construction.value;
            var s := Disconnect(Connect(Initial, env).after);
            s.notifications == [Connecting, Connected, Disconnected] &&
            s.calls == [Open(h, env.ephemeralKey.value), Close(h)] &&
            s.session.None?
  {
  }

  /**
   * When `session.connect` throws, the handle assigned just before stays set while the
   * status falls back to `Disconnected`; every later `connect` is then a silent no-op.
   */
  lemma StaleHandleBlocksReconnect(s: State, env: Environment, retry: Environment)
    requires s.session.None? && ReachesOpening(env) && env.opening.Threw?
    ensures var failed := Connect(s, env).after;
            failed.status == Disconnected &&
            failed.session == Some(env.construction.value) &&
            Connect(failed, retry) == Step(Resolved, failed)
  {
  }

  /** Only `disconnect` clears such a stale handle, after which `connect` proceeds again. */
  lemma DisconnectClearsStaleHandle(s: State, env: Environment, retry: Environment)
    requires s.session.None? && ReachesOpening(env) && env.opening.Threw?
    ensures var cleared := Disconnect(Connect(s, env).after);
            cleared.calls[|cleared.calls| - 1] == Close(env.construction.value) &&
            Connect(cleared, retry).after.notifications[|cleared.notifications|] == Connecting
  {
  }

  /** A failed key fetch leaves `Connecting` with no handle; a retry proceeds and notifies `Connecting` again. */
  lemma KeyFetchFailureLeavesConnecting(s: State, env: Environment, retry: Environment)
    requires s.session.None? && ReachesKeyFetch(env) && env.ephemeralKey.Throws?
    ensures var stuck := Connect(s, env).after;
            stuck.status == Connecting && stuck.session.None? &&
            Connect(stuck, retry).after.notifications[..|stuck.notifications| + 1] == stuck.notifications + [Connecting]
  {
  }
}
