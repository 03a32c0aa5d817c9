# Realtime session hook — a verified Dafny model

This project models the client-side realtime session adapter of a browser voice
demo: the React hook `useRealtimeSession` in `src/app/hooks/useRealtimeSession.ts`.
The hook owns at most one vendor `RealtimeSession` object (`sessionRef.current`).
It also owns a connection status (`DISCONNECTED`, `CONNECTING`, `CONNECTED`) that it
reports through `updateStatus`. It exposes `connect`, `disconnect`, `sendUserText`,
`sendEvent`, `mute`, `interrupt`, `pushToTalkStart` and `pushToTalkStop`, and it
routes raw transport events and agent handoffs to handlers.

Layout:

- `wrappers.dfy`: `Option`, and `JsError` for a thrown JavaScript `Error` (name and message).
- `js_strings.dfy`: the JavaScript built-ins the hook uses. These are `split` with a
  non-empty separator (proved to round-trip with `join`) and `toLowerCase`.
- `mic_permission.dfy`: the microphone probe and the user-facing message for each failure cause.
- `transport_events.dfy`: `handleTransportEvent` routing and `handleAgentHandoff` name extraction.
- `codec_param.dfy`: the `codec` query parameter, defaulted to `opus` and lower-cased.
- `session_spec.dfy`: the state machine on values. A `State` holds the status, the
  optional handle, every notified status and every call made on a vendor session.
  Each operation is a function with its properties in its `ensures`, and each keeps
  the invariant `Consistent`.
- `session_properties.dfy`: properties over several calls. The invariant holds after
  any sequence of calls and the logs are append-only. A second `disconnect` closes
  nothing and only notifies `DISCONNECTED` once more. The file also covers the two places where `connect` does not roll back.
- `session_adapter.dfy`: the hook as a class whose fields its methods update step by
  step. Each method is proved to follow its function in `SessionSpec`, and `connect`
  stops every track of the microphone test stream in a loop.

External outcomes are parameters of `connect` (an `Environment`). These are: WebRTC
present, `getUserMedia` present, the permission result, the key fetch, whether
`initialAgents` is non-empty, the vendor constructor and `session.connect`.
The vendor session is an opaque `Handle`.

Points where the code's behaviour is easy to misread, all modelled as written:

- Both catch blocks (lines 149 and 209) notify `DISCONNECTED` before rethrowing, but
  `getEphemeralKey()` (line 171) lies outside both of them. A failed key fetch
  therefore leaves the status at `CONNECTING`.
- A failure of `sessionRef.current.connect` (line 207) happens after the handle was
  assigned (line 184), and nothing clears it. The status becomes `DISCONNECTED`, the
  handle stays set, and every later `connect` returns at line 119 without a
  notification until `disconnect` is called.
- The handoff name is `name.split("transfer_to_")[1]` (line 84), not the name with a
  leading marker removed. It is the text between the first marker and the next one
  (or the end), wherever the first marker stands, and `undefined` when there is no
  marker.
- With an empty `initialAgents`, reading `rootAgent.name` at line 180 throws a
  `TypeError` inside the second `try`. So the status goes to `DISCONNECTED` and that
  error is rethrown.

## Model

| member | source | states |
|---|---|---|
| JsStrings.IndexOf | src/app/hooks/useRealtimeSession.ts:84 | the first occurrence of the separator at or after a position, or none when there is no occurrence from there on |
| JsStrings.Split | src/app/hooks/useRealtimeSession.ts:84 | `split` always gives at least one piece, and the first piece is a prefix of the string |
| JsStrings.SplitAtFirst | src/app/hooks/useRealtimeSession.ts:84 | `split` cuts at the first occurrence: the text before it, then the pieces of the text after it |
| JsStrings.SplitPiecesHaveNoSeparator | src/app/hooks/useRealtimeSession.ts:84 | no piece of `split` contains the separator |
| JsStrings.SplitHasOnePieceIff | src/app/hooks/useRealtimeSession.ts:84 | `split` gives a single piece exactly when the separator does not occur |
| JsStrings.SplitPieces | src/app/hooks/useRealtimeSession.ts:84 | no piece of `split` contains the separator; there is more than one piece exactly when the separator occurs |
| JsStrings.JoinSplit | src/app/hooks/useRealtimeSession.ts:84 | joining the pieces of `split` with the separator gives back the string |
| JsStrings.SplitAfterLeadingSeparator | src/app/hooks/useRealtimeSession.ts:84 | `(sep + x).split(sep)` is `["", x]` when `x` holds no separator |
| JsStrings.OverlapIsBorder | src/app/hooks/useRealtimeSession.ts:84 | two occurrences of the separator closer than its length make one of its suffixes equal to one of its prefixes |
| JsStrings.FirstOccurrenceAfter | src/app/hooks/useRealtimeSession.ts:84 | in `x + sep + y`, with no separator in `x` and a separator that cannot overlap itself, the first occurrence is right after `x` |
| JsStrings.SplitWithoutSeparator | src/app/hooks/useRealtimeSession.ts:84 | a string without the separator splits into itself alone |
| JsStrings.SplitAfterFirstPiece | src/app/hooks/useRealtimeSession.ts:84 | `(p + sep + rest).split(sep)` is `p` followed by the pieces of `rest`, when `p` holds no separator, and the separator cannot overlap itself (as `transfer_to_` cannot, `MarkerUnbordered`) |
| JsStrings.SplitFirstPiece | src/app/hooks/useRealtimeSession.ts:84 | the first piece of `a + q` is `a` when `a` holds no separator and `q` is empty or starts with one, and the separator cannot overlap itself (as `transfer_to_` cannot, `MarkerUnbordered`) |
| JsStrings.SplitSecondPiece | src/app/hooks/useRealtimeSession.ts:84 | `(p + sep + a + q).split(sep)[1]` is `a` when `p` and `a` hold no separator and `q` is empty or starts with one, and the separator cannot overlap itself (as `transfer_to_` cannot, `MarkerUnbordered`) |
| JsStrings.Lower | src/app/hooks/useRealtimeSession.ts:72 | `toLowerCase` keeps the length and lowers each character |
| JsStrings.LowerIsIdempotent | src/app/hooks/useRealtimeSession.ts:72 | a lowered string holds no upper-case letter and lowering it again changes nothing |
| MicPermission.RequestPermission | src/app/hooks/useRealtimeSession.ts:135-149 | the probe catches nothing exactly when `getUserMedia` exists and permission is granted; a missing API is caught as the `getUserMedia not supported in this browser` error, a rejection as itself |
| MicPermission.CauseOf | src/app/hooks/useRealtimeSession.ts:160-167 | `NotAllowedError`, `NotFoundError` and `NotSupportedError`, and only they, give access denied, no device and unsupported; any other error's detail is its message, or `Unknown error` when that is empty, and is never empty |
| MicPermission.PermissionMessage | src/app/hooks/useRealtimeSession.ts:160-168 | `NotAllowedError`, `NotFoundError` and `NotSupportedError` each give their fixed message; any other name gives `🎤 Microphone error: ` followed by the message or `Unknown error` |
| MicPermission.PermissionMessageDeterminesCause | src/app/hooks/useRealtimeSession.ts:160-168 | two errors give the same message only if they have the same cause, so the message names the cause |
| MicPermission.MissingGetUserMediaMessage | src/app/hooks/useRealtimeSession.ts:135-167 | a browser without `getUserMedia` gets the generic message carrying `getUserMedia not supported in this browser` |
| TransportEvents.Route | src/app/hooks/useRealtimeSession.ts:46-66 | the two transcript-completed types and only they go to `handleTranscriptionCompleted`; the delta type and only it goes to `handleTranscriptionDelta`; all else is logged |
| TransportEvents.HandleTransportEvent | src/app/hooks/useRealtimeSession.ts:46-66 | one event reaches exactly the handler its type routes to, once; the other handlers receive nothing |
| TransportEvents.DeliverKeepsOrder | src/app/hooks/useRealtimeSession.ts:46-66 | over a stream of events, each handler receives exactly the events routed to it, in arrival order |
| TransportEvents.RoutedToPartitions | src/app/hooks/useRealtimeSession.ts:46-66 | every event goes to exactly one handler: as multisets the three routed parts add up to the whole stream, and so do their lengths |
| TransportEvents.ScriptedTranscription | src/app/hooks/useRealtimeSession.ts:53-59 | deltas, deltas, done: the delta handler receives both deltas in order, the completion handler the done event, the log nothing |
| TransportEvents.HandleAgentHandoff | src/app/hooks/useRealtimeSession.ts:81-86 | throws exactly when the history is empty or its last entry has no name; otherwise the callback gets a name exactly when the marker occurs, and that name holds no marker |
| TransportEvents.HandoffExtractsAgent | src/app/hooks/useRealtimeSession.ts:84 | a last entry `transfer_to_<agent>`, with no marker in the agent name, hands off to that agent |
| TransportEvents.MarkerUnbordered | src/app/hooks/useRealtimeSession.ts:84 | two occurrences of `transfer_to_` can never overlap |
| TransportEvents.HandoffTakesSecondPiece | src/app/hooks/useRealtimeSession.ts:81-86 | a last entry named `p` + `transfer_to_` + `agent` + `q`, with no marker in `p` or `agent` and `q` empty or starting with the marker, hands off to `agent` |
| TransportEvents.HandoffToBilling | src/app/hooks/useRealtimeSession.ts:84 | `transfer_to_billing` hands off to `billing` |
| CodecParam.SelectCodec | src/app/hooks/useRealtimeSession.ts:68-73 | no window or no `codec` parameter gives `opus`; a present parameter (even empty) is lowered character by character; the result holds no upper-case letter |
| CodecParam.NarrowBandSelection | src/app/hooks/useRealtimeSession.ts:68-73 | `codec=PCMU` selects `pcmu`, no parameter selects `opus` |
| SessionSpec.UpdateStatus | src/app/hooks/useRealtimeSession.ts:33-40 | the status becomes the given one and is appended to the notifications; handle and calls unchanged |
| SessionSpec.Connect | src/app/hooks/useRealtimeSession.ts:111-220 | with a handle, a no-op; otherwise `CONNECTING` first; it resolves exactly when every step succeeds, and then ends `[CONNECTING, CONNECTED]` with the constructed handle; key-fetch failure leaves only `CONNECTING`; every other failure ends `[CONNECTING, DISCONNECTED]`; the thrown error on each failure path (WebRTC missing, the permission message, the missing root agent's `TypeError`, the construction's or `session.connect`'s own error); the handle is set exactly when construction succeeded (and stays set if `session.connect` fails); the only vendor call is `connect` with the fetched key; the invariant is kept |
| SessionSpec.Disconnect | src/app/hooks/useRealtimeSession.ts:222-226 | never throws; no handle and `DISCONNECTED` notified afterwards; `close` is called exactly when a handle existed; the invariant holds afterwards |
| SessionSpec.AssertConnected | src/app/hooks/useRealtimeSession.ts:228-230 | throws `RealtimeSession not connected` exactly when there is no handle |
| SessionSpec.SendUserText | src/app/hooks/useRealtimeSession.ts:238-241 | no handle: throws `RealtimeSession not connected`, nothing sent; with a handle: exactly one `sendMessage` with the exact text |
| SessionSpec.SendEventTo | src/app/hooks/useRealtimeSession.ts:243-245 | no-op without a handle; otherwise the event is sent verbatim, once |
| SessionSpec.MuteSession | src/app/hooks/useRealtimeSession.ts:247-249 | no-op without a handle; otherwise exactly one `mute(m)` |
| SessionSpec.InterruptSession | src/app/hooks/useRealtimeSession.ts:234-236 | no-op without a handle; otherwise exactly one `interrupt()` |
| SessionSpec.PushToTalkStart | src/app/hooks/useRealtimeSession.ts:251-254 | no-op without a handle; otherwise appends exactly `input_audio_buffer.clear` |
| SessionSpec.PushToTalkStop | src/app/hooks/useRealtimeSession.ts:256-260 | no-op without a handle; otherwise appends exactly `input_audio_buffer.commit` then `response.create` |
| SessionProperties.RunKeepsConsistent | src/app/hooks/useRealtimeSession.ts:111-260 | after any sequence of calls the invariant holds: status is the last notified, `CONNECTED` only with a handle, `CONNECTING` only without, every vendor call addresses an opened session |
| SessionProperties.ReachableIsConsistent | src/app/hooks/useRealtimeSession.ts:27-30 | from mount on, every reachable state is consistent; `CONNECTED` implies a handle |
| SessionProperties.RunOnlyAppends | src/app/hooks/useRealtimeSession.ts:111-260 | notifications and vendor calls are only ever appended |
| SessionProperties.DisconnectTwice | src/app/hooks/useRealtimeSession.ts:222-226 | a second `disconnect` closes nothing and only notifies `DISCONNECTED` once more |
| SessionProperties.ConnectThenDisconnect | src/app/hooks/useRealtimeSession.ts:184-226 | connect then disconnect from mount: notifications `[CONNECTING, CONNECTED, DISCONNECTED]`, calls `[connect(key), close]` on the one handle |
| SessionProperties.StaleHandleBlocksReconnect | src/app/hooks/useRealtimeSession.ts:119-216 | a failed `session.connect` leaves `DISCONNECTED` with the handle set, and a later `connect` is a silent no-op |
| SessionProperties.DisconnectClearsStaleHandle | src/app/hooks/useRealtimeSession.ts:222-226 | `disconnect` closes that stale session, after which `connect` proceeds with `CONNECTING` |
| SessionProperties.KeyFetchFailureLeavesConnecting | src/app/hooks/useRealtimeSession.ts:171 | a failed key fetch leaves `CONNECTING` with no handle; a retry proceeds and notifies `CONNECTING` again |
| SessionAdapter.StopTracks | src/app/hooks/useRealtimeSession.ts:148 | every track of the test stream ends up stopped |
| SessionAdapter.RealtimeSessionHook.constructor | src/app/hooks/useRealtimeSession.ts:26-73 | mount: `DISCONNECTED`, no handle, nothing notified or called; the codec is fixed from the query |
| SessionAdapter.RealtimeSessionHook.UpdateStatus | src/app/hooks/useRealtimeSession.ts:33-40 | follows `SessionSpec.UpdateStatus` |
| SessionAdapter.RealtimeSessionHook.Connect | src/app/hooks/useRealtimeSession.ts:111-220 | follows `SessionSpec.Connect` and keeps the invariant; all test-stream tracks are stopped exactly when the probe succeeded, otherwise untouched |
| SessionAdapter.RealtimeSessionHook.Disconnect | src/app/hooks/useRealtimeSession.ts:222-226 | follows `SessionSpec.Disconnect` and keeps the invariant |
| SessionAdapter.RealtimeSessionHook.AssertConnected | src/app/hooks/useRealtimeSession.ts:228-230 | throws `RealtimeSession not connected` exactly when there is no handle; changes nothing |
| SessionAdapter.RealtimeSessionHook.Interrupt | src/app/hooks/useRealtimeSession.ts:234-236 | follows `SessionSpec.InterruptSession` and keeps the invariant |
| SessionAdapter.RealtimeSessionHook.SendUserText | src/app/hooks/useRealtimeSession.ts:238-241 | follows `SessionSpec.SendUserText` and keeps the invariant |
| SessionAdapter.RealtimeSessionHook.SendEvent | src/app/hooks/useRealtimeSession.ts:243-245 | follows `SessionSpec.SendEventTo` and keeps the invariant |
| SessionAdapter.RealtimeSessionHook.Mute | src/app/hooks/useRealtimeSession.ts:247-249 | follows `SessionSpec.MuteSession` and keeps the invariant |
| SessionAdapter.RealtimeSessionHook.PushToTalkStart | src/app/hooks/useRealtimeSession.ts:251-254 | follows `SessionSpec.PushToTalkStart` and keeps the invariant |
| SessionAdapter.RealtimeSessionHook.PushToTalkStop | src/app/hooks/useRealtimeSession.ts:256-260 | follows `SessionSpec.PushToTalkStop` and keeps the invariant |

## Left out

- React mechanics are not modelled: `useState`, `useRef`, `useCallback` dependency arrays, and re-rendering.
- The subscriptions registered in the `useEffect` at lines 88-109 are not modelled: `error`, `agent_handoff`, the tool, history and guardrail events, and `transport_event`. Only the two handlers with logic (`handleTransportEvent`, `handleAgentHandoff`) are modelled. The other events go unchanged to handlers outside this file.
- The vendor SDK (`RealtimeSession`, `OpenAIRealtimeWebRTC`) is an opaque `Handle`. Its construction and its `connect` are outcome parameters. `close`, `interrupt`, `mute`, `sendMessage` and `transport.sendEvent` are recorded calls that are assumed not to throw.
- The construction arguments are not modelled: the agent object, the audio element, the model name, the transcription model, the guardrails and the extra context. The codec is also passed through `audioFormatForCodec` and `applyCodecPreferences`, which are from `../lib/codecUtils`, and that file is not part of this model. The selected codec is stored as a constant of the hook, and `audioFormatForCodec` is assumed not to throw.
- Browser I/O is reduced to parameters: `window.RTCPeerConnection`, `navigator.mediaDevices.getUserMedia` and its audio constraints, and `window.location`. A test stream is a sequence of tracks.
- Asynchrony is not modelled: each `connect` is one atomic step. The guard at line 119 checks the handle, not the status, so two overlapping `connect` calls could both pass it; this is not captured.
- Console logging is not modelled.
- The server routes, the build configuration, the static agent definitions, the smoke-test script and the text-only UI component are not part of this model. They are network I/O, configuration or UI, with no state machine.
- JsStrings.Lower: lowers the ASCII letters `A`-`Z` only. JavaScript's `toLowerCase` also lowers non-ASCII letters. CodecParam.SelectCodec inherits this.
- Thrown errors: an error's `message` is a string, and the empty string stands for a missing message. Both are falsy for the `||` at line 167. A thrown value that is not an object is not modelled.
- Missing root agent: the `TypeError` message for reading `name` of `undefined` is engine-specific; the text used is V8's.
