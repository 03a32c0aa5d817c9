/** The codec preference read once from the page URL (useRealtimeSession.ts, lines 68-73). */
module CodecParam {

  import opened Wrappers
  import opened JsStrings

  const DefaultCodec := "opus"

  /**
   * `(window defined ? (query 'codec' ?? 'opus') : 'opus').toLowerCase()`.
   * `query` is the `codec` query parameter, `None` when it is absent; an empty
   * value is present and is kept.
   */
  function SelectCodec(hasWindow: bool, query: Option<string>): (codec: string)
    ensures forall i :: 0 <= i < |codec| ==> !IsUpper(codec[i])
    ensures !hasWindow || query.None? ==> codec == DefaultCodec
    ensures hasWindow && query.Some? ==> |codec| == |query.value|
    ensures hasWindow && query.Some? ==>
              forall i :: 0 <= i < |codec| ==> codec[i] == LowerChar(query.value[i])
  {
    Lower(if hasWindow then query.GetOr(DefaultCodec) else DefaultCodec)
  }

  /** `?codec=PCMU` selects `pcmu`; no parameter selects `opus`. */
  lemma NarrowBandSelection()
    ensures SelectCodec(true, Some("PCMU")) == "pcmu"
    ensures SelectCodec(true, None) == "opus"
  {
    assert Lower("PCMU")[0] == 'p';
  }
}
