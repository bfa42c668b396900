/**
 * The chat-completions envelope both components read: what a `fetch` of
 * `<baseUrl>/v1beta/chat/completions` resolves to, and the path
 * `choices[0]?.<kind>?.content` into its decoded body or into a stream frame.
 */
module Chat {
  import opened JsValues

  /** What awaiting `fetch` gave: a rejected fetch (an EngineError for the
      caller), or a response with its `ok` flag, its `statusText` and a body
      of type `B`. */
  datatype Response<B> = NetworkError | Received(ok: bool, statusText: string, body: B)

  /** `data.choices[0]?.<kind>?.content`. `None` is the TypeError thrown
      when `data` or `data.choices` is `null` or `undefined`; past `[0]` the
      optional chaining turns every missing step into `undefined`. */
  function ChoiceContent(data: Json, kind: string): (r: Option<Json>)
    ensures r.None? <==> Nullish(data) || Nullish(Get(data, "choices").value)
    ensures r.Some? && Truthy(r.value) ==>
              data.JObj? && "choices" in data.fields && Truthy(data.fields["choices"])
  {
    match Get(data, "choices")
    case None => None
    case Some(choices) =>
      match AtZero(choices)
      case None => None
      case Some(first) => Some(OptGet(OptGet(first, kind), "content"))
  }

  /** The smallest reply body that carries `content` along the path: one
      choice whose `kind` ("delta" for a stream frame, "message" for a full
      reply) holds it. Real replies carry further keys (`id`, `model`,
      `index`, `role`, `finish_reason`), which the path does not read. */
  function Envelope(kind: string, content: Json): Json
  {
    JObj(map["choices" := JArr([JObj(map[kind := JObj(map["content" := content])])])])
  }

  /** The path reads back what the envelope carries. */
  lemma {:induction false} EnvelopeContent(kind: string, content: Json)
    ensures ChoiceContent(Envelope(kind, content), kind) == Some(content)
  {
    var first := JObj(map[kind := JObj(map["content" := content])]);
    assert Get(Envelope(kind, content), "choices") == Some(JArr([first]));
    assert OptGet(first, kind) == JObj(map["content" := content]);
  }
}
