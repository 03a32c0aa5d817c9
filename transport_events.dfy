/**
 * The hook's two event handlers (useRealtimeSession.ts, lines 46-66 and 81-86):
 * routing a raw transport event by its `type`, and reading the target agent
 * of a handoff from the last history entry's name.
 */
module TransportEvents {

  import opened Wrappers
  import opened JsStrings

  /** A raw server event: its `type` field and, opaque, the rest of the object. */
  datatype ServerEvent = ServerEvent(eventType: string, rest: string)

  const InputTranscriptionCompleted := "conversation.item.input_audio_transcription.completed"
  const AudioTranscriptDone := "response.audio_transcript.done"
  const AudioTranscriptDelta := "response.audio_transcript.delta"

  /** The handler an event goes to. */
  datatype Sink = TranscriptionCompleted | TranscriptionDelta | ServerLog

  /** The `switch (event.type)` of `handleTransportEvent`. */
  function Route(eventType: string): (sink: Sink)
    ensures sink == TranscriptionCompleted <==>
              eventType == InputTranscriptionCompleted || eventType == AudioTranscriptDone
    ensures sink == TranscriptionDelta <==> eventType == AudioTranscriptDelta
  {
    if eventType == InputTranscriptionCompleted then TranscriptionCompleted
    else if eventType == AudioTranscriptDone then TranscriptionCompleted
    else if eventType == AudioTranscriptDelta then TranscriptionDelta
    else ServerLog
  }

  /** What each handler has received so far, in order of receipt. */
  datatype Received = Received(completed: seq<ServerEvent>, deltas: seq<ServerEvent>, logged: seq<ServerEvent>)

  const NothingReceived := Received([], [], [])

  /** The events among `evs` that go to `sink`, in their original order. */
  function RoutedTo(evs: seq<ServerEvent>, sink: Sink): seq<ServerEvent> {
    if evs == [] then []
    else (if Route(evs[0].eventType) == sink then [evs[0]] else []) + RoutedTo(evs[1..], sink)
  }

  /** The handlers' logs for one sink. */
  function LogOf(r: Received, sink: Sink): seq<ServerEvent> {
    match sink
    case TranscriptionCompleted => r.completed
    case TranscriptionDelta => r.deltas
    case ServerLog => r.logged
  }

  /** `handleTransportEvent`: the event is handed, once, to exactly the handler its type routes to. */
  function HandleTransportEvent(r: Received, ev: ServerEvent): (r': Received)
    ensures forall sink :: LogOf(r', sink) ==
              LogOf(r, sink) + (if sink == Route(ev.eventType) then [ev] else [])
  {
    match Route(ev.eventType)
    case TranscriptionCompleted => r.(completed := r.completed + [ev])
    case TranscriptionDelta => r.(deltas := r.deltas + [ev])
    case ServerLog => r.(logged := r.logged + [ev])
  }

  /** The handlers' logs after `evs` arrive, one by one, in order. */
  function Deliver(r: Received, evs: seq<ServerEvent>): Received
    decreases |evs|
  {
    if evs == [] then r else Deliver(HandleTransportEvent(r, evs[0]), evs[1..])
  }

  /** Each handler receives exactly the events routed to it, in arrival order. */
  lemma {:induction false} DeliverKeepsOrder(r: Received, evs: seq<ServerEvent>, sink: Sink)
    decreases |evs|
    ensures LogOf(Deliver(r, evs), sink) == LogOf(r, sink) + RoutedTo(evs, sink)
  {
    if evs != [] {
      var r1 := HandleTransportEvent(r, evs[0]);
      assert Deliver(r, evs) == Deliver(r1, evs[1..]);
      assert RoutedTo(evs, sink) == (if Route(evs[0].eventType) == sink then [evs[0]] else []) + RoutedTo(evs[1..], sink);
      DeliverKeepsOrder(r1, evs[1..], sink);
      assert LogOf(r1, sink) == LogOf(r, sink) + (if Route(evs[0].eventType) == sink then [evs[0]] else []);
    }
  }

  /** Every event reaches exactly one handler: the three routed parts partition the stream, none lost, none duplicated. */
  lemma {:induction false} RoutedToPartitions(evs: seq<ServerEvent>)
    ensures multiset(RoutedTo(evs, TranscriptionCompleted)) + multiset(RoutedTo(evs, TranscriptionDelta)) +
            multiset(RoutedTo(evs, ServerLog)) == multiset(evs)
    ensures |RoutedTo(evs, TranscriptionCompleted)| + |RoutedTo(evs, TranscriptionDelta)| + |RoutedTo(evs, ServerLog)| == |evs|
  {
    if evs != [] {
      RoutedToPartitions(evs[1..]);
      assert evs == [evs[0]] + evs[1..];
    }
  }

  /** Two transcript deltas and then a completion: the delta handler sees both deltas in order, the completion handler the completion, the log nothing. */
  lemma ScriptedTranscription(d1: ServerEvent, d2: ServerEvent, done: ServerEvent)
    requires d1.eventType == AudioTranscriptDelta && d2.eventType == AudioTranscriptDelta
    requires done.eventType == AudioTranscriptDone
    ensures Deliver(NothingReceived, [d1, d2, done]) == Received([done], [d1, d2], [])
  {
    var evs := [d1, d2, done];
    assert evs[1..] == [d2, done] && evs[1..][1..] == [done];
    assert Route(d1.eventType) == Route(d2.eventType) == TranscriptionDelta;
    assert Route(done.eventType) == TranscriptionCompleted;
    assert [done][1..] == [];
    assert RoutedTo([done], TranscriptionCompleted) == [done];
    assert RoutedTo([d2, done], TranscriptionCompleted) == [done];
    assert RoutedTo(evs, TranscriptionCompleted) == [done];
    assert RoutedTo([done], TranscriptionDelta) == [];
    assert RoutedTo([d2, done], TranscriptionDelta) == [d2];
    assert RoutedTo(evs, TranscriptionDelta) == [d1, d2];
    assert RoutedTo([done], ServerLog) == [];
    assert RoutedTo([d2, done], ServerLog) == [];
    assert RoutedTo(evs, ServerLog) == [];
    DeliverKeepsOrder(NothingReceived, evs, TranscriptionCompleted);
    DeliverKeepsOrder(NothingReceived, evs, TranscriptionDelta);
    DeliverKeepsOrder(NothingReceived, evs, ServerLog);
  }

  const TransferMarker := "transfer_to_"

  /** An entry of the session history, as far as the handoff handler reads it: its `name`, when it has one. */
  datatype HistoryItem = HistoryItem(name: Option<string>)

  /** What `handleAgentHandoff` does: call `onAgentHandoff` with the name (`None` for `undefined`), or throw a `TypeError`. */
  datatype Handoff = Notify(agentName: Option<string>) | HandlerThrows

  /**
   * `history[history.length - 1].name.split("transfer_to_")[1]`: reading `.name` of a
   * missing last entry, or `.split` of a missing name, throws; a name without the
   * marker gives `undefined`.
   */
  function HandleAgentHandoff(history: seq<HistoryItem>): (h: Handoff)
    ensures h.HandlerThrows? <==> history == [] || history[|history| - 1].name.None?
    ensures h.Notify? ==> (h.agentName.Some? <==> Contains(history[|history| - 1].name.value, TransferMarker))
    ensures h.Notify? && h.agentName.Some? ==> !Contains(h.agentName.value, TransferMarker)
  {
    if history == [] then HandlerThrows
    else match history[|history| - 1].name
      case None => HandlerThrows
      case Some(n) =>
        var pieces := Split(n, TransferMarker);
        SplitPieces(n, TransferMarker);
        Notify(if |pieces| >= 2 then Some(pieces[1]) else None)
  }

  /** A name shorter than the marker cannot contain it. */
  lemma ShortNameHasNoMarker(x: string)
    requires |x| < |TransferMarker|
    ensures !Contains(x, TransferMarker)
  {
  }

  /** A last entry named `transfer_to_` followed by a marker-free agent name hands off to that name. */
  lemma HandoffExtractsAgent(history: seq<HistoryItem>, agent: string)
    requires history != [] && history[|history| - 1].name == Some(TransferMarker + agent)
    requires !Contains(agent, TransferMarker)
    ensures HandleAgentHandoff(history) == Notify(Some(agent))
  {
    SplitAfterLeadingSeparator(TransferMarker, agent);
  }

  /** `transfer_to_` cannot overlap itself. */
  lemma MarkerUnbordered()
    ensures Unbordered(TransferMarker)
  {
    var m := TransferMarker;
    assert m == ['t', 'r', 'a', 'n', 's', 'f', 'e', 'r', '_', 't', 'o', '_'];
    forall d | 0 < d < |m|
      ensures m[d..] != m[..|m| - d]
    {
      if d == 3 {
        assert m[d..][0] == 'n' != 't' == m[..|m| - d][0];
      } else if d == 9 {
        assert m[d..][1] == 'o' != 'r' == m[..|m| - d][1];
      } else {
        // The last character of the suffix is the final '_'; that of the prefix is not.
        assert m[d..][|m| - d - 1] == '_';
        assert m[|m| - d - 1] != '_';
      }
    }
  }

  /**
   * The callback gets the text between the first marker and the next one (or the end),
   * wherever the first marker stands in the name.
   */
  lemma HandoffTakesSecondPiece(history: seq<HistoryItem>, p: string, agent: string, q: string)
    requires history != [] && history[|history| - 1].name == Some(p + TransferMarker + agent + q)
    requires !Contains(p, TransferMarker) && !Contains(agent, TransferMarker)
    requires q == [] || OccursAt(q, TransferMarker, 0)
    ensures HandleAgentHandoff(history) == Notify(Some(agent))
  {
    MarkerUnbordered();
    SplitSecondPiece(TransferMarker, p, agent, q);
  }

  /** The handoff to `transfer_to_billing` reaches the callback as `billing`. */
  lemma HandoffToBilling(history: seq<HistoryItem>)
    requires history != [] && history[|history| - 1].name == Some("transfer_to_billing")
    ensures HandleAgentHandoff(history) == Notify(Some("billing"))
  {
    ShortNameHasNoMarker("billing");
    assert "transfer_to_billing" == TransferMarker + "billing";
    HandoffExtractsAgent(history, "billing");
  }
}
